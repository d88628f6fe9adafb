/**
 * The text codecs of the four upper layers in `simulador_red.py`: `[APP:app]`,
 * `[H4:proto:src:dst]`, `[H3:ipSrc:ipDst]` and `[H2:macSrc:macDst]` headers put in
 * front of the payload, and parsed back by locating the first `]` and splitting on `:`.
 */
module Layers {
  import opened Wrappers
  import opened Text

  /** The application tag reported when the data carries none. */
  const GENERIC_APP := "GENERICA"

  /** A transport segment as `CapaTransporte.desencapsular` returns it. */
  datatype Segment = Segment(payload: string, proto: string, srcPort: int, dstPort: int)

  /** A network packet or link frame as the address-pair layers return it. */
  datatype Frame = Frame(payload: string, src: string, dst: string)

  /** A header field the grammar can carry back: it holds neither separator. */
  predicate Field(f: string) {
    ':' !in f && ']' !in f
  }

  // Application layer

  /** `CapaAplicacion.encapsular(mensaje, app)`. */
  function AppEncap(msg: string, app: string): string {
    "[APP:" + app + "]" + msg
  }

  predicate AppTagged(datos: string) {
    |datos| >= 5 && datos[..5] == "[APP:"
  }

  /**
   * `CapaAplicacion.desencapsular`: (payload, app). Without a `]` the app is
   * `datos[5:-1]` and the payload the whole input.
   */
  function AppDecap(datos: string): (r: (string, string))
    ensures |r.0| <= |datos| && r.0 == datos[|datos| - |r.0|..]
    ensures !AppTagged(datos) ==> r == (datos, GENERIC_APP)
  {
    if AppTagged(datos) then
      var fin := Find(datos, ']') + 1;
      (datos[fin..], PySlice(datos, 5, fin - 1))
    else
      (datos, GENERIC_APP)
  }

  lemma AppRoundTrip(msg: string, app: string)
    requires ']' !in app
    ensures AppDecap(AppEncap(msg, app)) == (msg, app)
  {
    var s := AppEncap(msg, app);
    var j := 5 + |app|;
    assert s == "[APP:" + app + "]" + msg;
    assert s[..5] == "[APP:";
    assert s[..j] == "[APP:" + app;
    FindAt(s, ']', j);
    assert s[5..j] == app;
    assert s[j + 1..] == msg;
  }

  // Transport layer

  /** `CapaTransporte.encapsular(datos_app, puerto_origen, puerto_destino, protocolo)`. */
  function TransEncap(data: string, srcPort: int, dstPort: int, proto: string): string {
    Header(["H4", proto, IntToString(srcPort), IntToString(dstPort)]) + data
  }

  /**
   * `CapaTransporte.desencapsular`. `None` is the `IndexError` of a header with
   * fewer than four fields and the `ValueError` of a port that is not an integer.
   */
  function TransDecap(seg: string): (r: Option<Segment>)
    ensures r.Some? ==> ':' !in r.value.proto
    ensures r.Some? ==> |r.value.payload| < |seg| && r.value.payload == seg[|seg| - |r.value.payload|..]
    ensures ']' !in seg ==> r == None
  {
    var h := SplitHeader(seg);
    var parts := h.1;
    if |parts| < 4 then None
    else
      var src, dst := ParseInt(parts[2]), ParseInt(parts[3]);
      if src.None? || dst.None? then None
      else
        Some(Segment(h.0, parts[1], src.value, dst.value))
  }

  lemma TransRoundTrip(data: string, srcPort: int, dstPort: int, proto: string)
    requires Field(proto)
    ensures TransDecap(TransEncap(data, srcPort, dstPort, proto)) == Some(Segment(data, proto, srcPort, dstPort))
  {
    var fields := ["H4", proto, IntToString(srcPort), IntToString(dstPort)];
    IntToStringField(srcPort);
    IntToStringField(dstPort);
    SplitHeaderRoundTrip(fields, data);
    ParseIntToString(srcPort);
    ParseIntToString(dstPort);
  }

  // Network and link layers

  /** `CapaRed.encapsular(segmento, ip_origen, ip_destino)`. */
  function NetEncap(seg: string, ipSrc: string, ipDst: string): string {
    Header(["H3", ipSrc, ipDst]) + seg
  }

  /** `CapaEnlace.encapsular(paquete, mac_origen, mac_destino)`. */
  function LinkEncap(pkt: string, macSrc: string, macDst: string): string {
    Header(["H2", macSrc, macDst]) + pkt
  }

  /**
   * `CapaRed.desencapsular` and `CapaEnlace.desencapsular`, which are the same code:
   * the fields are `s[1:fin-1].split(':')`. Without a `]` that slice is `s[1:-1]`, so
   * a partial parse comes back with the whole input as payload; `None` is the
   * `IndexError` of fewer than three fields.
   */
  function PairDecap(s: string): (r: Option<Frame>)
    ensures r.Some? ==> ':' !in r.value.src && ':' !in r.value.dst
    ensures r.Some? ==> |r.value.payload| <= |s| && r.value.payload == s[|s| - |r.value.payload|..]
    ensures r.Some? && ']' !in s ==> r.value.payload == s
  {
    var fin := Find(s, ']') + 1;
    assert 0 <= fin <= |s| && (']' !in s ==> fin == 0);
    var parts := Split(PySlice(s, 1, fin - 1), ':');
    if |parts| < 3 then None
    else
      assert ':' !in parts[1] && ':' !in parts[2];
      assert s[fin..] == s[|s| - |s[fin..]|..];
      Some(Frame(s[fin..], parts[1], parts[2]))
  }

  lemma {:induction false} PairDecapHeader(tag: string, payload: string, src: string, dst: string)
    requires Field(tag) && Field(src) && Field(dst)
    ensures PairDecap(Header([tag, src, dst]) + payload) == Some(Frame(payload, src, dst))
  {
    var fields := [tag, src, dst];
    assert Free(fields, ':') && Free(fields, ']') by {
      forall i | 0 <= i < 3 ensures Field(fields[i]) {
      }
    }
    var s := Header(fields) + payload;
    var j := |Join(fields, ':')| + 1;
    HeaderLayout(fields, payload);
    assert PySlice(s, 1, j) == Join(fields, ':');
    SplitJoin(fields, ':');
    assert Split(PySlice(s, 1, j), ':') == fields;
  }

  lemma NetRoundTrip(seg: string, ipSrc: string, ipDst: string)
    requires Field(ipSrc) && Field(ipDst)
    ensures PairDecap(NetEncap(seg, ipSrc, ipDst)) == Some(Frame(seg, ipSrc, ipDst))
  {
    PairDecapHeader("H3", seg, ipSrc, ipDst);
  }

  lemma LinkRoundTrip(pkt: string, macSrc: string, macDst: string)
    requires Field(macSrc) && Field(macDst)
    ensures PairDecap(LinkEncap(pkt, macSrc, macDst)) == Some(Frame(pkt, macSrc, macDst))
  {
    PairDecapHeader("H2", pkt, macSrc, macDst);
  }

  // Every codec keeps text within 8-bit characters, so the physical layer can carry it

  lemma HeaderLatin1(fields: seq<string>, payload: string)
    requires forall i :: 0 <= i < |fields| ==> Latin1(fields[i])
    requires Latin1(payload)
    ensures Latin1(Header(fields) + payload)
  {
    JoinLatin1(fields, ':');
    Latin1Concat("[" + Join(fields, ':'), "]");
    Latin1Concat("[", Join(fields, ':'));
    Latin1Concat(Header(fields), payload);
  }

  lemma AppEncapLatin1(msg: string, app: string)
    requires Latin1(msg) && Latin1(app)
    ensures Latin1(AppEncap(msg, app))
  {
    Latin1Concat("[APP:", app);
    Latin1Concat("[APP:" + app, "]");
    Latin1Concat("[APP:" + app + "]", msg);
  }

  lemma TransEncapLatin1(data: string, srcPort: int, dstPort: int, proto: string)
    requires Latin1(data) && Latin1(proto)
    ensures Latin1(TransEncap(data, srcPort, dstPort, proto))
  {
    IntToStringField(srcPort);
    IntToStringField(dstPort);
    HeaderLatin1(["H4", proto, IntToString(srcPort), IntToString(dstPort)], data);
  }

  lemma NetEncapLatin1(seg: string, ipSrc: string, ipDst: string)
    requires Latin1(seg) && Latin1(ipSrc) && Latin1(ipDst)
    ensures Latin1(NetEncap(seg, ipSrc, ipDst))
  {
    HeaderLatin1(["H3", ipSrc, ipDst], seg);
  }

  lemma LinkEncapLatin1(pkt: string, macSrc: string, macDst: string)
    requires Latin1(pkt) && Latin1(macSrc) && Latin1(macDst)
    ensures Latin1(LinkEncap(pkt, macSrc, macDst))
  {
    HeaderLatin1(["H2", macSrc, macDst], pkt);
  }

  /** The three header layers nest: peeling them off in turn gives every field back. */
  lemma StackRoundTrip(msg: string, app: string, proto: string, srcPort: int, dstPort: int,
                       ipSrc: string, ipDst: string, macSrc: string, macDst: string)
    requires ']' !in app && Field(proto)
    requires Field(ipSrc) && Field(ipDst) && Field(macSrc) && Field(macDst)
    ensures var seg := TransEncap(AppEncap(msg, app), srcPort, dstPort, proto);
            var pkt := NetEncap(seg, ipSrc, ipDst);
            && PairDecap(LinkEncap(pkt, macSrc, macDst)) == Some(Frame(pkt, macSrc, macDst))
            && PairDecap(pkt) == Some(Frame(seg, ipSrc, ipDst))
            && TransDecap(seg) == Some(Segment(AppEncap(msg, app), proto, srcPort, dstPort))
            && AppDecap(AppEncap(msg, app)) == (msg, app)
  {
    var seg := TransEncap(AppEncap(msg, app), srcPort, dstPort, proto);
    var pkt := NetEncap(seg, ipSrc, ipDst);
    LinkRoundTrip(pkt, macSrc, macDst);
    NetRoundTrip(seg, ipSrc, ipDst);
    TransRoundTrip(AppEncap(msg, app), srcPort, dstPort, proto);
    AppRoundTrip(msg, app);
  }
}
