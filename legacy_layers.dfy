/**
 * The text codecs of `encapsulamiento.py`, the earlier form of the simulator:
 * `[AP:proto:port]`, `[TR:port]`, `[RE:ipSrc:ipDst]` and `[EN:macSrc:macDst]`
 * headers. Every decapsulation cuts the input at the first `]`, strips the
 * brackets from the header with `[1:-1]` and splits it on `:`; a field it needs
 * and cannot find raises `IndexError`, which is `None` here. The ports come
 * back as decimal text, not as integers.
 */
module LegacyLayers {
  import opened Wrappers
  import opened Text
  import opened Layers

  /** What `CapaAplicacion.desencapsular` returns: the message, the protocol and the port text. */
  datatype AppData = AppData(msg: string, proto: string, port: string)

  /** What `CapaTransporte.desencapsular` returns: the payload and the source port text. */
  datatype TransData = TransData(payload: string, srcPort: string)

  // Application layer

  /** `CapaAplicacion.encapsular(mensaje, protocolo, puerto_destino)`. */
  function ApEncap(msg: string, proto: string, port: int): string {
    Header(["AP", proto, IntToString(port)]) + msg
  }

  /** `CapaAplicacion.desencapsular`: fails when the header has fewer than three fields. */
  function ApDecap(datos: string): (r: Option<AppData>)
    ensures r.Some? ==> ':' !in r.value.proto && ':' !in r.value.port
    ensures r.Some? ==> |r.value.msg| < |datos| && r.value.msg == datos[|datos| - |r.value.msg|..]
    ensures ']' !in datos ==> r == None
  {
    var h := SplitHeader(datos);
    if |h.1| < 3 then None else Some(AppData(h.0, h.1[1], h.1[2]))
  }

  /** The message and protocol come back as they were, the port as the text `str(port)`, which reads back as `port`. */
  lemma ApRoundTrip(msg: string, proto: string, port: int)
    requires Field(proto)
    ensures ApDecap(ApEncap(msg, proto, port)) == Some(AppData(msg, proto, IntToString(port)))
    ensures ParseInt(ApDecap(ApEncap(msg, proto, port)).value.port) == Some(port)
  {
    IntToStringField(port);
    SplitHeaderRoundTrip(["AP", proto, IntToString(port)], msg);
    ParseIntToString(port);
  }

  // Transport layer

  /** `CapaTransporte.encapsular(datos_app, puerto_origen)`. */
  function TrEncap(data: string, srcPort: int): string {
    Header(["TR", IntToString(srcPort)]) + data
  }

  /** `CapaTransporte.desencapsular`: fails when the header has fewer than two fields. */
  function TrDecap(seg: string): (r: Option<TransData>)
    ensures r.Some? ==> ':' !in r.value.srcPort
    ensures r.Some? ==> |r.value.payload| < |seg| && r.value.payload == seg[|seg| - |r.value.payload|..]
    ensures ']' !in seg ==> r == None
  {
    var h := SplitHeader(seg);
    if |h.1| < 2 then None else Some(TransData(h.0, h.1[1]))
  }

  lemma TrRoundTrip(data: string, srcPort: int)
    ensures TrDecap(TrEncap(data, srcPort)) == Some(TransData(data, IntToString(srcPort)))
    ensures ParseInt(TrDecap(TrEncap(data, srcPort)).value.srcPort) == Some(srcPort)
  {
    IntToStringField(srcPort);
    SplitHeaderRoundTrip(["TR", IntToString(srcPort)], data);
    ParseIntToString(srcPort);
  }

  // Network and link layers

  /** `CapaRed.encapsular(segmento, ip_origen, ip_destino)`. */
  function ReEncap(seg: string, ipSrc: string, ipDst: string): string {
    Header(["RE", ipSrc, ipDst]) + seg
  }

  /** `CapaEnlace.encapsular(paquete, mac_origen, mac_destino)`. */
  function EnEncap(pkt: string, macSrc: string, macDst: string): string {
    Header(["EN", macSrc, macDst]) + pkt
  }

  /**
   * `CapaRed.desencapsular` and `CapaEnlace.desencapsular`, the same code. Unlike the
   * later form, the fields come from the header cut at the first `]`, so an input
   * without `]` has an empty header and fails instead of parsing partially.
   */
  function AddressDecap(s: string): (r: Option<Frame>)
    ensures r.Some? ==> ':' !in r.value.src && ':' !in r.value.dst
    ensures r.Some? ==> |r.value.payload| < |s| && r.value.payload == s[|s| - |r.value.payload|..]
    ensures ']' !in s ==> r == None
  {
    var h := SplitHeader(s);
    if |h.1| < 3 then None else Some(Frame(h.0, h.1[1], h.1[2]))
  }

  lemma {:induction false} AddressRoundTrip(tag: string, payload: string, src: string, dst: string)
    requires Field(tag) && Field(src) && Field(dst)
    ensures AddressDecap(Header([tag, src, dst]) + payload) == Some(Frame(payload, src, dst))
  {
    var fields := [tag, src, dst];
    assert Free(fields, ':') && Free(fields, ']') by {
      forall i | 0 <= i < 3 ensures Field(fields[i]) {
      }
    }
    SplitHeaderRoundTrip(fields, payload);
  }

  lemma ReRoundTrip(seg: string, ipSrc: string, ipDst: string)
    requires Field(ipSrc) && Field(ipDst)
    ensures AddressDecap(ReEncap(seg, ipSrc, ipDst)) == Some(Frame(seg, ipSrc, ipDst))
  {
    AddressRoundTrip("RE", seg, ipSrc, ipDst);
  }

  lemma EnRoundTrip(pkt: string, macSrc: string, macDst: string)
    requires Field(macSrc) && Field(macDst)
    ensures AddressDecap(EnEncap(pkt, macSrc, macDst)) == Some(Frame(pkt, macSrc, macDst))
  {
    AddressRoundTrip("EN", pkt, macSrc, macDst);
  }

  /**
   * Where the two forms part: on a string with no `]` the later network and link
   * decapsulation returns the whole input as payload, the earlier one fails.
   */
  lemma MissingBracket(s: string)
    requires ']' !in s && |Split(PySlice(s, 1, -1), ':')| >= 3
    ensures AddressDecap(s) == None
    ensures PairDecap(s).Some? && PairDecap(s).value.payload == s
  {
  }

  // Every codec keeps text within 8-bit characters

  lemma ApEncapLatin1(msg: string, proto: string, port: int)
    requires Latin1(msg) && Latin1(proto)
    ensures Latin1(ApEncap(msg, proto, port))
  {
    IntToStringField(port);
    HeaderLatin1(["AP", proto, IntToString(port)], msg);
  }

  lemma TrEncapLatin1(data: string, srcPort: int)
    requires Latin1(data)
    ensures Latin1(TrEncap(data, srcPort))
  {
    IntToStringField(srcPort);
    HeaderLatin1(["TR", IntToString(srcPort)], data);
  }

  lemma ReEncapLatin1(seg: string, ipSrc: string, ipDst: string)
    requires Latin1(seg) && Latin1(ipSrc) && Latin1(ipDst)
    ensures Latin1(ReEncap(seg, ipSrc, ipDst))
  {
    HeaderLatin1(["RE", ipSrc, ipDst], seg);
  }

  lemma EnEncapLatin1(pkt: string, macSrc: string, macDst: string)
    requires Latin1(pkt) && Latin1(macSrc) && Latin1(macDst)
    ensures Latin1(EnEncap(pkt, macSrc, macDst))
  {
    HeaderLatin1(["EN", macSrc, macDst], pkt);
  }
}
