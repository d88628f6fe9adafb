# Layered network simulator, modelled in Dafny

This project models a teaching simulator of network-stack encapsulation in two
forms:

- `simulador_red.py` is the later form. A PC wraps a message in application,
  transport, network and link headers. It turns the frame into a string of binary
  digits and hands it to the device at the other end of a cable. Each device
  unwraps the bits layer by layer in `Dispositivo.recibir`. At layers 2 and 3 it
  either keeps what is addressed to one of its own addresses, or rewraps it and
  forwards it on the interface its tables give.
- `encapsulamiento.py` is the earlier form. It has the same five codecs with other
  header tags, the same ladder without real forwarding, and a `configurar_red` of
  its own.

## Modules

- `Text` (`text.dfy`) holds the Python string operations the codecs use:
  - `find`, slicing with negative and clamped bounds, and `split`/`join`;
  - the bracketed header;
  - `str(int)` and `int(str)` on decimal text.
- `Physical` (`physical.dfy`) is the bit codec of `CapaFisica`, shared by both
  forms. It uses `format(ord(c), '08b')` and `chr(int(bits[i:i+8], 2))` with a
  short last chunk. The decoding loop is a method proved equal to its function.
- `Layers` (`layers.dfy`) holds the four header codecs of the later form, each
  with its round trip.
- `LegacyLayers` (`legacy_layers.dfy`) holds the four codecs of the earlier form,
  each with its round trip. It also shows where its network and link decoding
  parts from the later one.
- `Devices` (`devices.dfy`) holds the address attributes of `PC`, `Router` and
  `Switch`, and the addresses each one answers to.
- `Network` (`network.dfy`) models `recibir`, `enviar_por_interfaz` and
  `PC.enviar_mensaje` of the later form:
  - The calls from device to device become a `Trace` of hops, over an immutable
    topology.
  - The layer-2 and layer-3 decisions are separate step functions.
  - Every trace is proved to be a walk along the cables.
- `NetworkSetup` (`setup.dfy`) holds `configurar_red` of the later form:
  - a `Node` class whose connections and tables change in place;
  - the method that builds, wires and fills five nodes;
  - the value it produces;
  - the delivery of a message from either PC to the other, hop by hop.
- `LegacyNetwork` (`legacy_network.dfy`) holds the earlier form's `recibir`,
  `enviar_mensaje` and `configurar_red`.
  - Its ladder takes the device's own MAC and IP lists as parameters.
  - As written, those lists come from `dir(self)` filtered by `endswith('_MAC')` and
    `endswith('_IP')`. That filter selects nothing (see Findings).

Python exceptions (`IndexError`, `ValueError`, `AttributeError`) become `None` or
`Raised(layer)`. Python truthiness of table values is kept: an empty-string entry
counts as absent. Text is `seq<char>`, and integers are unbounded.

Decoding and lookup behaviour the model keeps as the code has it:

- Later network/link decoding of a string with no `]` splits `s[1:-1]` on `:`. When that gives at least three fields, it
  returns the whole input as payload; with fewer, `partes[1]` or `partes[2]`
  raises `IndexError` (`Layers.PairDecap`).
- Later application decoding of a tagged string with no `]`: the code returns the
  whole input, with the tag `datos[5:-1]` (`Layers.AppDecap`).
- Bit strings whose length is not a multiple of 8: nothing rejects them. The last,
  shorter chunk is decoded like the others (`Physical.DecodeBits`).
- A table entry whose value is empty counts as absent, because the code tests it
  with `if`.
- The earlier form never forwards. Its link layer builds a new frame whose
  destination is the interface name from `tabla_enlace`, and sends nothing. Its
  network layer only finds the next hop.

## Model

| member | source | states |
|---|---|---|
| Text.Find | simulador_red.py:83 | `find` gives an index holding the character with no earlier occurrence, and -1 exactly when the character is absent |
| Text.Split | simulador_red.py:85 | `split(':')` gives at least one part; no part holds the separator; joining the parts with it gives back the input |
| Text.SplitJoin | simulador_red.py:85 | splitting the join of separator-free parts gives the parts back |
| Text.SplitHeader | encapsulamiento.py:75-79 | cutting at the first `]`, stripping `[1:-1]` and splitting on `:` gives separator-free fields and a payload that is a suffix of the input; with no `]` the payload is the whole input and the only field is empty |
| Text.HeaderLayout | encapsulamiento.py:67-70 | in `[f1:...:fn]` + payload, the first `]` closes the header, the payload follows it and the text between the brackets is the fields joined by `:` |
| Text.SplitHeaderRoundTrip | encapsulamiento.py:67-83 | parsing a header built from separator-free fields gives back the payload and exactly those fields |
| Text.NatToString | simulador_red.py:59 | `str` of a non-negative integer is digits only, with no leading zero |
| Text.DigitsValueOfNat | simulador_red.py:70-71 | the decimal digits of `n` read back as `n` |
| Text.ParseIntToString | simulador_red.py:70-71 | `int(str(n)) == n` for every integer, negative ones included |
| Text.IntToStringField | simulador_red.py:59 | `str(port)` contains neither `:` nor `]` and is 8-bit text, so it can sit in a header |
| Text.IntToString | simulador_red.py:59 | `str(n)`: at least one character, a leading `-` exactly when `n` is negative, and digits otherwise; ParseIntToString reads it back as `n` |
| Text.ParseInt | simulador_red.py:70-71 | `int(s)`: empty text raises; a string of digits reads as its decimal value; a negative result comes only from a leading `-`. ParseIntToString makes it the inverse of `str` |
| Text.PySlice | simulador_red.py:85 | `s[i:j]` with Python's negative and clamped bounds gives at most `len(s)` characters; PairDecapHeader and SplitHeaderRoundTrip pin the header slices exactly |
| Text.Join | simulador_red.py:85 | `sep.join(parts)`, no contract of its own; Split states that joining its parts gives the input back, and SplitJoin that splitting a join gives the parts back |
| Text.Header | encapsulamiento.py:27 | the f-string header `[f1:...:fn]` opens with `[` and closes with `]`; HeaderLayout and SplitHeaderRoundTrip state how parsing recovers the fields |
| Text.SliceBound | simulador_red.py:85 | a Python slice bound: never beyond the length, kept as it is when it lies in `0..n`, and counted from the end when it is negative and no further back than `-n` |
| Text.DigitsValue | simulador_red.py:70-71 | the value `int()` reads from decimal digits, no contract of its own; DigitsValueOfNat states that the digits of `str(n)` read back as `n`, and ParseIntToString that `int(str(n)) == n` |
| Physical.Format08b | simulador_red.py:107 | `format(n, '08b')` is a binary string of at least 8 digits whose value is `n`; it is exactly 8 digits long if and only if `n < 256` |
| Physical.Binary | simulador_red.py:107 | the digits `format` pads: a non-empty binary string whose value is `n`, starting with `1` whenever `n >= 1` |
| Physical.BinValue | simulador_red.py:116 | `int(byte, 2)`: the value of `k` binary digits is below `2^k`; BinaryUnique states that it is injective at a fixed length |
| Physical.Chr | simulador_red.py:116 | `chr` of a chunk's value below 256, no contract of its own; DecodeChunk states which character each chunk becomes, and DecodeEncode that `chr` undoes `ord` for 8-bit text |
| Physical.EncodeBits | simulador_red.py:105-107 | the encoding is all binary digits, 8 per character for 8-bit text |
| Physical.DecodeBits | simulador_red.py:111-117 | decoding gives one character per 8 digits, plus one for a shorter last chunk, each below 256 |
| Physical.Decode | simulador_red.py:111-117 | the loop over 8-digit chunks computes `DecodeBits` of its input |
| Physical.DecodeChunk | simulador_red.py:114-116 | decoding from a chunk boundary gives the chunk's character followed by the decoding of the rest |
| Physical.DecodeEncode | simulador_red.py:105-117 | decoding the encoding of 8-bit text gives the text back |
| Physical.EncodeDecode | simulador_red.py:105-117 | encoding the decoding of a binary string whose length is a multiple of 8 gives the bits back |
| Physical.BinaryUnique | simulador_red.py:116 | two binary strings of one length with the same value are equal |
| Physical.FormatChunk | simulador_red.py:105-116 | an 8-digit binary chunk has a value below 256, and `format(value, '08b')` gives the chunk back |
| Physical.EncodeCons | simulador_red.py:107 | the encoding is the first character's 8 digits followed by the encoding of the rest |
| Layers.AppDecap | simulador_red.py:47-53 | the payload is a suffix of the input; untagged data comes back whole with the tag `GENERICA` |
| Layers.AppTagged | simulador_red.py:48 | `datos.startswith("[APP:")`, no contract of its own; AppDecap states that untagged data comes back whole with `GENERICA`, and AppRoundTrip that the encoding is tagged and parsed back |
| Layers.AppEncap | simulador_red.py:42-43 | `[APP:app]` + message, no contract of its own; AppRoundTrip states that AppDecap recovers `(message, app)` and AppEncapLatin1 that it stays 8-bit |
| Layers.AppRoundTrip | simulador_red.py:42-53 | decoding `[APP:app]msg` gives back `msg` and `app` whenever `app` holds no `]` |
| Layers.TransDecap | simulador_red.py:64-72 | on success the protocol holds no `:` and the payload is a strict suffix; with no `]` it fails |
| Layers.TransEncap | simulador_red.py:58-60 | `[H4:proto:src:dst]` + data, no contract of its own; TransRoundTrip states that TransDecap recovers all four fields |
| Layers.TransRoundTrip | simulador_red.py:58-72 | decoding `[H4:proto:src:dst]data` gives back the data, protocol and both ports as integers |
| Layers.PairDecap | simulador_red.py:82-86 | on success both addresses are free of `:`, the payload is a suffix, and with no `]` it is the whole input |
| Layers.NetEncap | simulador_red.py:77-78 | `[H3:src:dst]` + segment, no contract of its own; NetRoundTrip states that PairDecap recovers it |
| Layers.LinkEncap | simulador_red.py:91-92 | `[H2:src:dst]` + packet, no contract of its own; LinkRoundTrip states that PairDecap recovers it |
| Layers.PairDecapHeader | simulador_red.py:82-86 | decoding a three-field header built from separator-free fields gives back the payload and both addresses |
| Layers.NetRoundTrip | simulador_red.py:77-86 | decoding `[H3:src:dst]seg` gives back the segment and both IPs |
| Layers.LinkRoundTrip | simulador_red.py:91-100 | decoding `[H2:src:dst]pkt` gives back the packet and both MACs |
| Layers.AppEncapLatin1 | simulador_red.py:42-43 | the application encoding of 8-bit text is 8-bit text |
| Layers.TransEncapLatin1 | simulador_red.py:58-60 | the transport encoding of 8-bit text is 8-bit text |
| Layers.NetEncapLatin1 | simulador_red.py:77-78 | the network encoding of 8-bit text is 8-bit text |
| Layers.LinkEncapLatin1 | simulador_red.py:91-92 | the link encoding of 8-bit text is 8-bit text |
| Layers.StackRoundTrip | simulador_red.py:42-100 | peeling link, network, transport and application headers in turn gives back every field and the message |
| LegacyLayers.ApDecap | encapsulamiento.py:31-43 | on success protocol and port are free of `:` and the message is a strict suffix; with no `]` it raises |
| LegacyLayers.ApEncap | encapsulamiento.py:24-28 | `[AP:proto:port]` + message, no contract of its own; ApRoundTrip states that ApDecap recovers the message, the protocol and `str(port)` |
| LegacyLayers.ApRoundTrip | encapsulamiento.py:24-43 | decoding `[AP:proto:port]msg` gives back the message, the protocol and the port text, which reads back as the port |
| LegacyLayers.TrDecap | encapsulamiento.py:54-63 | on success the port text is free of `:` and the payload a strict suffix; with no `]` it raises |
| LegacyLayers.TrEncap | encapsulamiento.py:47-51 | `[TR:port]` + data, no contract of its own; TrRoundTrip states that TrDecap recovers it |
| LegacyLayers.TrRoundTrip | encapsulamiento.py:47-63 | decoding `[TR:port]data` gives back the data and the port text, which reads back as the port |
| LegacyLayers.AddressDecap | encapsulamiento.py:73-83 | on success both addresses are free of `:` and the payload a strict suffix; with no `]` it raises |
| LegacyLayers.ReEncap | encapsulamiento.py:67-70 | `[RE:src:dst]` + segment, no contract of its own; ReRoundTrip states that AddressDecap recovers it |
| LegacyLayers.EnEncap | encapsulamiento.py:87-90 | `[EN:src:dst]` + packet, no contract of its own; EnRoundTrip states that AddressDecap recovers it |
| LegacyLayers.AddressRoundTrip | encapsulamiento.py:73-83 | decoding any three-field header of separator-free fields gives back the payload and both addresses |
| LegacyLayers.ReRoundTrip | encapsulamiento.py:67-83 | decoding `[RE:src:dst]seg` gives back the segment and both IPs |
| LegacyLayers.EnRoundTrip | encapsulamiento.py:87-103 | decoding `[EN:src:dst]pkt` gives back the packet and both MACs |
| LegacyLayers.MissingBracket | encapsulamiento.py:75-79 | on input with no `]` whose `s[1:-1]` splits into at least three `:` fields, the earlier network/link decoding raises where the later one returns the whole input as payload |
| LegacyLayers.ApEncapLatin1 | encapsulamiento.py:24-28 | the application encoding of 8-bit text is 8-bit text |
| LegacyLayers.TrEncapLatin1 | encapsulamiento.py:47-51 | the transport encoding of 8-bit text is 8-bit text |
| LegacyLayers.ReEncapLatin1 | encapsulamiento.py:67-70 | the network encoding of 8-bit text is 8-bit text |
| LegacyLayers.EnEncapLatin1 | encapsulamiento.py:87-90 | the link encoding of 8-bit text is 8-bit text |
| Devices.OwnedMacs | simulador_red.py:166-169 | the `hasattr` list `MAC_IZQ`, `MAC_DER`, `MAC`, no contract of its own; FrameForMe states that a frame for any of them goes up, and PrefixFindsMacs that the corrected earlier form selects the same list |
| Devices.OwnedIps | simulador_red.py:201-204 | the `hasattr` list `IP_IZQ`, `IP_DER`, `IP`, no contract of its own; PacketForMe states that a packet for any of them goes up, and PrefixFindsIps that the corrected earlier form selects the same list |
| Network.Get | simulador_red.py:179-180 | `table.get(key)` followed by `if value:`, no contract of its own; FrameForwarded and PacketForwarded state the drop on a missing or empty entry |
| Network.SourceMac | simulador_red.py:183-185 | the new source MAC is missing (the `AttributeError`) exactly when a device without `MAC_IZQ`/`MAC_DER` sends on `if_izq` or `if_der`; otherwise a router sends from `MAC_IZQ` on `if_izq`, from `MAC_DER` on `if_der` and from `X` on any other interface, and any other device from its own `MAC` |
| Network.Deliver | simulador_red.py:237-239 | layer 5 ends the run where it is, with no hop, delivering a suffix of its input; untagged data is delivered whole with the tag `GENERICA` |
| Network.TransportLayer | simulador_red.py:230-235 | layer 4 makes no hop; it raises exactly when the transport header does not parse; a parsed header is delivered with the protocol and both ports it carries, and the message is strictly shorter than the segment |
| Network.LinkStepCases | simulador_red.py:161-194 | for every input, each branch of layer 2: a frame that does not parse raises, one for an owned MAC climbs with its packet, a `tabla_enlace` miss drops with the MAC unknown, a switch or PC forwards the frame unchanged, and a router forwards it rebuilt from the outgoing MAC. These clauses follow the branches of `LinkStep`; FrameForMe and FrameForwarded state the same decisions on frames the codecs build |
| Network.NetStepCases | simulador_red.py:196-228 | for every input, each branch of layer 3: a packet that does not parse raises, one for an owned IP climbs with its segment, a `tabla_red` miss drops with no route, a `tabla_enlace` miss drops with no interface, a missing source MAC raises, and otherwise the original packet leaves in a new frame to the next hop. These clauses follow the branches of `NetStep`; PacketForMe and PacketForwarded state the same decisions on packets the codecs build |
| Network.LinkStep | simulador_red.py:161-194 | layer 2 either goes up, forwards on an interface, or ends with a drop or an exception |
| Network.NetStep | simulador_red.py:196-228 | layer 3 either goes up, forwards on an interface, or ends with a drop or an exception |
| Network.SendMessage | simulador_red.py:256-294 | no truthy `tabla_red` entry: dropped for no route with no hop; no interface for the next MAC: dropped with no hop; any hop made starts at the sender with the frame built for the next MAC |
| Network.MessageFrame | simulador_red.py:256-280 | the four nested headers `enviar_mensaje` builds, no contract of its own; StackRoundTrip states that peeling them recovers every field, and DeliveredPc1ToPc2 follows one to delivery |
| Network.MessageSent | simulador_red.py:274-294 | with both table entries present, sending is transmitting the built frame on the interface found |
| Network.FrameForMe | simulador_red.py:165-175 | a frame for an owned MAC goes up to layer 3 whatever the link table says |
| Network.FrameForwarded | simulador_red.py:177-193 | a frame for another MAC is dropped with no truthy entry; a switch forwards it unchanged; a router re-frames it from the MAC of its outgoing interface, `X` for an interface other than `if_izq` and `if_der` |
| Network.PacketForMe | simulador_red.py:200-210 | a packet for an owned IP goes up to layer 4 whatever either table holds |
| Network.PacketForwarded | simulador_red.py:212-227 | a packet for another IP is dropped for no route or no interface, raises when the device has no MAC for the outgoing interface, and is otherwise re-framed from that MAC to the next hop and forwarded; which MAC that is, per interface, is stated by SourceMac |
| Network.SegmentDelivered | simulador_red.py:230-240 | a segment built from a tagged message is delivered with the message, the tag, the protocol and both ports |
| Network.LinkClimbs | simulador_red.py:171-175 | when layer 2 goes up, receiving at layer 2 is receiving the packet at layer 3 |
| Network.LinkForwards | simulador_red.py:179-191 | when layer 2 forwards, receiving is sending the new frame on the interface found |
| Network.NetClimbs | simulador_red.py:206-210 | when layer 3 goes up, receiving is receiving the segment at layer 4 |
| Network.NetForwards | simulador_red.py:213-223 | when layer 3 forwards, receiving is sending the new frame on the interface found |
| Network.ReceiveSegment | simulador_red.py:230-235 | receiving at layer 4 is the transport and application decoding, with no further hop |
| Network.ReceiveBits | simulador_red.py:153-159 | receiving the bits of 8-bit text at layer 1 is receiving the text at layer 2 |
| Network.Transmit | simulador_red.py:139-147 | sending on a connected interface makes one hop to the peer, which receives the frame at layer 2 on its interface |
| Network.SendStep | simulador_red.py:143-147 | sending on a connected interface with fuel left is one hop followed by the peer's reception of the bits |
| Network.Unconnected | simulador_red.py:140-142 | sending on an interface that is not connected ends with no hop |
| Network.ReceiveWalk | simulador_red.py:150-240 | every run of `recibir` is a walk along existing cables from the device, of at most `fuel` hops, never reaching a missing device in a closed topology |
| Network.FollowWalk | simulador_red.py:171-235 | what follows a layer decision is such a walk too |
| Network.SendWalk | simulador_red.py:139-147 | every run of `enviar_por_interfaz` is such a walk |
| Network.Receive | simulador_red.py:150-240 | `recibir`, no contract of its own; ReceiveWalk, ReceiveBits, LinkClimbs, LinkForwards, NetClimbs, NetForwards, ReceiveSegment, FrameForMe, FrameForwarded, PacketForMe, PacketForwarded and SegmentDelivered state it |
| Network.Follow | simulador_red.py:171-194 | carrying out one layer decision, no contract of its own; FollowWalk states that it is a walk along the cables, and LinkClimbs, LinkForwards, NetClimbs and NetForwards each case |
| Network.SendOnInterface | simulador_red.py:139-147 | `enviar_por_interfaz`, no contract of its own; Unconnected states the unconnected interface, SendStep and Transmit the hop to the peer at layer 1, and SendWalk that the result is a walk |
| NetworkSetup.Node.constructor | simulador_red.py:128-132 | a new device has its name and addresses and empty connections and tables |
| NetworkSetup.Node.Connect | simulador_red.py:135-136 | `conectar` sets one connection and changes nothing else |
| NetworkSetup.Wire | simulador_red.py:322-330 | the eight `conectar` calls give each device the connections of the fixed topology and leave the tables alone |
| NetworkSetup.FillTables | simulador_red.py:332-348 | the assignments give each device the tables of the fixed topology and leave the connections alone |
| NetworkSetup.ConfigureNetwork | simulador_red.py:315-350 | the five devices built are exactly the fixed topology |
| NetworkSetup.FixedTopology | simulador_red.py:315-350 | the five devices `configurar_red` returns, no contract of its own; ConfigureNetwork states that the method builds exactly this, and FixedCabled that every cable is entered at both ends |
| NetworkSetup.Pc1 | simulador_red.py:316 | PC1 with its cable and tables (simulador_red.py:323, 334-335), no contract of its own; Pc1Sends12 and Pc1OnlyRoutesToPc2 state what it does with them |
| NetworkSetup.Pc2 | simulador_red.py:317 | PC2 with its cable and tables (simulador_red.py:330, 337-338), no contract of its own; Pc2Sends21 and Pc2OnlyRoutesToPc1 state what it does with them |
| NetworkSetup.Router1 | simulador_red.py:318 | the router with its cables and tables (simulador_red.py:326-327, 347-348), no contract of its own; RouterTakes, RouterForwards, RouterRoutes12 and RouterRoutes21 state what it does with them |
| NetworkSetup.Switch1 | simulador_red.py:319 | Switch1 with its cables and table (simulador_red.py:324-325, 341), no contract of its own; Switch1Forwards12 and Switch1Forwards21 state what it does with them |
| NetworkSetup.Switch2 | simulador_red.py:320 | Switch2 with its cables and table (simulador_red.py:328-329, 342), no contract of its own; Switch2Forwards12 and Switch2Forwards21 state what it does with them |
| NetworkSetup.FixedCabled | simulador_red.py:322-330 | every cable of the fixed topology is entered at both ends, and none leads outside it |
| NetworkSetup.Pc1Sends12 | simulador_red.py:256-294 | PC1 sending to PC2's IP makes one hop to Switch1 with the frame to the router's left MAC |
| NetworkSetup.Switch1Forwards12 | simulador_red.py:188-191 | Switch1 passes that frame on unchanged to the router |
| NetworkSetup.RouterTakes | simulador_red.py:165-175 | the router takes up any frame for either of its MACs |
| NetworkSetup.RouterForwards | simulador_red.py:212-223 | the router re-frames a packet for PC1 from its left MAC on `if_izq`, and one for PC2 from its right MAC on `if_der` |
| NetworkSetup.RouterRoute | simulador_red.py:212-223 | a packet for another IP with both table entries goes out re-framed from the interface's MAC to the next hop |
| NetworkSetup.RouterRoutes12 | simulador_red.py:196-223 | the router re-frames PC1's packet from its right MAC to PC2's MAC and sends it to Switch2 |
| NetworkSetup.Switch2Forwards12 | simulador_red.py:188-191 | Switch2 passes that frame on unchanged to PC2 |
| NetworkSetup.Pc2Accepts12 | simulador_red.py:165-210 | PC2 takes the frame and the packet up to its transport layer |
| NetworkSetup.FromSwitch2ToPc2 | simulador_red.py:139-240 | from Switch2 on, the frame reaches PC2's transport layer in one hop |
| NetworkSetup.FromRouterToPc2 | simulador_red.py:139-240 | from the router on, it does so in two hops |
| NetworkSetup.FromSwitch1ToPc2 | simulador_red.py:139-240 | from Switch1 on, it does so in three hops |
| NetworkSetup.DeliveredPc1ToPc2 | simulador_red.py:256-350 | a message from PC1 to PC2 crosses Switch1, the router and Switch2 in four hops, with one MAC rewrite at the router, and PC2 gets the message, the tag, the protocol and both ports |
| NetworkSetup.Pc2Sends21 | simulador_red.py:256-294 | PC2 sending to PC1's IP makes one hop to Switch2 with the frame to the router's right MAC |
| NetworkSetup.Switch2Forwards21 | simulador_red.py:188-191 | Switch2 passes that frame on unchanged to the router |
| NetworkSetup.RouterRoutes21 | simulador_red.py:196-223 | the router re-frames PC2's packet from its left MAC to PC1's MAC and sends it to Switch1 |
| NetworkSetup.Switch1Forwards21 | simulador_red.py:188-191 | Switch1 passes that frame on unchanged to PC1 |
| NetworkSetup.Pc1Accepts21 | simulador_red.py:165-210 | PC1 takes the frame and the packet up to its transport layer |
| NetworkSetup.FromSwitch1ToPc1 | simulador_red.py:139-240 | from Switch1 on, the frame reaches PC1's transport layer in one hop |
| NetworkSetup.FromRouterToPc1 | simulador_red.py:139-240 | from the router on, it does so in two hops |
| NetworkSetup.FromSwitch2ToPc1 | simulador_red.py:139-240 | from Switch2 on, it does so in three hops |
| NetworkSetup.DeliveredPc2ToPc1 | simulador_red.py:256-350 | a message from PC2 to PC1 takes the mirror path in four hops and PC1 gets every field |
| NetworkSetup.Pc1OnlyRoutesToPc2 | simulador_red.py:274-277 | PC1 drops a message to any IP other than PC2's for lack of a route, before any hop |
| NetworkSetup.Pc2OnlyRoutesToPc1 | simulador_red.py:274-277 | PC2 drops a message to any IP other than PC1's for lack of a route, before any hop |
| LegacyNetwork.WithSuffix | encapsulamiento.py:148 | the comprehension over `dir(self)` keeps a value exactly when some attribute with that value has a name ending in the suffix |
| LegacyNetwork.EndsWith | encapsulamiento.py:148 | `attr.endswith(suffix)`, no contract of its own; WithSuffix states that the comprehension selects exactly the names it accepts, and ReflectionFindsNothing that it accepts no attribute name for `_MAC` or `_IP` |
| LegacyNetwork.WithPrefix | encapsulamiento.py:148 | the same selection by names starting with a prefix |
| LegacyNetwork.Attributes | encapsulamiento.py:148 | the string attributes `dir(self)` lists for each device class, in sorted order, no contract of its own; ReflectionFindsNothing states that none ends in `_MAC` or `_IP` |
| LegacyNetwork.ReflectedMacs | encapsulamiento.py:148 | the list the layer-2 test compares against, no contract of its own; ReflectionFindsNothing states that it is empty |
| LegacyNetwork.ReflectedIps | encapsulamiento.py:168 | the list the layer-3 test compares against, no contract of its own; ReflectionFindsNothing states that it is empty |
| LegacyNetwork.ReflectionFindsNothing | encapsulamiento.py:148-168 | no attribute name of any device ends in `_MAC` or `_IP`, so both lists are empty |
| LegacyNetwork.PrefixFindsMacs | encapsulamiento.py:148 | selecting names that start with `MAC` yields exactly the MACs the device declares |
| LegacyNetwork.PrefixFindsIps | encapsulamiento.py:168 | selecting names that start with `IP` yields exactly the IPs the device declares |
| LegacyNetwork.LinkStep | encapsulamiento.py:144-162 | layer 2 climbs exactly when the frame parses and its destination is one of the given MACs, with a strictly shorter packet; otherwise it ends with a built frame, an unknown MAC or an exception |
| LegacyNetwork.OwnMacOr | encapsulamiento.py:157 | `getattr(self, 'MAC', 'X')`, no contract of its own; LadderLinkForward states that the frame layer 2 builds comes from `X` on a router and from the device's `MAC` otherwise |
| LegacyNetwork.NetStep | encapsulamiento.py:164-179 | layer 3 climbs exactly when the packet parses and its destination is one of the given IPs, with a strictly shorter segment; otherwise it ends with a route found, no route or an exception |
| LegacyNetwork.SegmentStep | encapsulamiento.py:181-183 | layer 4 climbs exactly when the transport header parses, with a strictly shorter payload, and raises otherwise |
| LegacyNetwork.AppLayer | encapsulamiento.py:185-187 | layer 5 displays a strict suffix of its input, or raises; without a `]` it always raises |
| LegacyNetwork.Ladder | encapsulamiento.py:133-187 | `recibir` over given MAC and IP lists, no contract of its own; LadderBits, LadderLinkUp, LadderLinkMiss, LadderNetUp, LadderNetRoute, LadderSegment and LadderApp state each layer, and LadderDelivers the whole climb |
| LegacyNetwork.Receive | encapsulamiento.py:133-187 | `recibir` as written, no contract of its own; NeverDelivered and NeverClimbsFromNetwork state that it never climbs past layers 2 and 3 |
| LegacyNetwork.ReceiveDeclared | encapsulamiento.py:133-187 | `recibir` with the declared addresses, no contract of its own; DeclaredDelivers and DeclaredDrops state what it does |
| LegacyNetwork.LinkNeverClimbs | encapsulamiento.py:144-162 | with no MAC of its own, layer 2 ends the call with a built frame, an unknown MAC or an exception |
| LegacyNetwork.NeverDelivered | encapsulamiento.py:140-162 | as written, nothing received at layer 1 or 2 is ever displayed as a message |
| LegacyNetwork.NeverClimbsFromNetwork | encapsulamiento.py:164-179 | as written, a packet received at layer 3 only finds a route, finds none, or raises |
| LegacyNetwork.NetNeverClimbs | encapsulamiento.py:164-179 | with no IP of its own, layer 3 ends the call with a route found, no route or an exception, whatever MAC list it holds |
| LegacyNetwork.MessageFrame | encapsulamiento.py:199-217 | the four nested headers `enviar_mensaje` builds, no contract of its own; PeelMessage states that peeling them recovers every field |
| LegacyNetwork.NextHop | encapsulamiento.py:215 | `tabla_red.get(ip_destino, ROUTER_MAC_LEFT)`, no contract of its own; Pc1Bits and Pc2Bits state the hops the configured PCs pick |
| LegacyNetwork.SendMessage | encapsulamiento.py:195-226 | `enviar_mensaje` always returns a binary string |
| LegacyNetwork.MessageFrameLatin1 | encapsulamiento.py:199-217 | the packet and frame built from 8-bit fields are 8-bit text |
| LegacyNetwork.PeelMessage | encapsulamiento.py:195-226 | the returned bits are 8 per frame character, and peeling them gives back the frame, both MACs, both IPs, the source port, the protocol, the port and the message |
| LegacyNetwork.LadderBits | encapsulamiento.py:140-142 | receiving the bits of 8-bit text at layer 1 is receiving the text at layer 2 |
| LegacyNetwork.LadderLinkUp | encapsulamiento.py:147-150 | a frame for an owned MAC goes up to layer 3 |
| LegacyNetwork.LadderLinkMiss | encapsulamiento.py:151-162 | a frame for another MAC with no truthy `tabla_enlace` entry ends with that MAC unknown |
| LegacyNetwork.LadderLinkForward | encapsulamiento.py:151-159 | a frame for another MAC with a truthy `tabla_enlace` entry ends the call with a new frame from `X` (router) or the device's `MAC` to that entry, and nothing is sent |
| LegacyNetwork.LadderNetUp | encapsulamiento.py:167-170 | a packet for an owned IP goes up to layer 4 |
| LegacyNetwork.LadderNetRoute | encapsulamiento.py:171-177 | a packet for another IP with a truthy `tabla_red` entry ends with that next hop found |
| LegacyNetwork.LadderSegment | encapsulamiento.py:181-183 | layer 4 passes the payload up to layer 5 |
| LegacyNetwork.LadderApp | encapsulamiento.py:185-187 | layer 5 displays the message |
| LegacyNetwork.LadderDelivers | encapsulamiento.py:133-187 | bits framed to an owned MAC and addressed to an owned IP climb all five layers and the message is displayed |
| LegacyNetwork.LadderDropsBits | encapsulamiento.py:140-162 | bits framed to an unowned MAC with no table entry end with that MAC unknown |
| LegacyNetwork.LadderRoutesBits | encapsulamiento.py:140-177 | bits framed to an owned MAC, for an IP not owned but in `tabla_red`, end with that next hop found |
| LegacyNetwork.DeclaredDelivers | encapsulamiento.py:133-187 | with declared addresses, a PC displays any message framed to its MAC and addressed to its IP |
| LegacyNetwork.ReflectedDrops | encapsulamiento.py:144-162 | as written, a device drops bits framed to any MAC missing from its `tabla_enlace`, its own MAC included |
| LegacyNetwork.DeclaredDrops | encapsulamiento.py:151-162 | with declared addresses, a PC drops bits framed to another MAC missing from its `tabla_enlace` |
| LegacyNetwork.LegacyPc1 | encapsulamiento.py:249-265 | PC 1 with its tables, no contract of its own; DemoReceptionReverse and DemoReceptionReverseDeclared state what it does with them |
| LegacyNetwork.LegacyPc2 | encapsulamiento.py:250-266 | PC 2 with its tables, no contract of its own; Pc2DropsItsOwnFrame, Pc2AcceptsDeclared and DemoReception state what it does with them |
| LegacyNetwork.LegacyRouter | encapsulamiento.py:251-281 | the router with its tables, no contract of its own; RouterDropsPc1Bits and RouterRoutesDeclared state what it does with them |
| LegacyNetwork.LegacySwitch1 | encapsulamiento.py:252-271 | Switch 1 with its table, no contract of its own; it stays a value of the configuration, as no menu option sends to it |
| LegacyNetwork.LegacySwitch2 | encapsulamiento.py:253-276 | Switch 2 with its table, no contract of its own; it stays a value of the configuration, as no menu option sends to it |
| LegacyNetwork.Pc2DropsItsOwnFrame | encapsulamiento.py:148 | as written, PC2 drops the bits of `[EN:D:B][RE:1:2][TR:5000][AP:TCP:80]msg` for an unknown MAC `B`, its own |
| LegacyNetwork.Pc2AcceptsDeclared | encapsulamiento.py:148-187 | with its declared addresses PC2 displays that message |
| LegacyNetwork.Pc1Bits | encapsulamiento.py:195-226 | PC1's bits for PC2 frame the message to the router's left MAC `C` |
| LegacyNetwork.RouterDropsPc1Bits | encapsulamiento.py:144-162 | as written, the router drops PC1's bits for an unknown MAC `C`, its own left MAC |
| LegacyNetwork.RouterRoutesDeclared | encapsulamiento.py:164-177 | with declared addresses, the router takes PC1's frame up and finds the next hop `F`, Switch2's MAC, sending nothing |
| LegacyNetwork.DemoReception | encapsulamiento.py:303-310 | the menu hands PC1's bits straight to PC2, which drops them for the unknown MAC `C` |
| LegacyNetwork.DemoReceptionDeclared | encapsulamiento.py:303-310 | PC2 drops them the same way with its declared addresses |
| LegacyNetwork.Pc2Bits | encapsulamiento.py:195-226 | PC2's bits for PC1 frame the message to the router's right MAC `D` |
| LegacyNetwork.DemoReceptionReverse | encapsulamiento.py:312-319 | the menu hands PC2's bits straight to PC1, which drops them for the unknown MAC `D` |
| LegacyNetwork.DemoReceptionReverseDeclared | encapsulamiento.py:312-319 | PC1 drops them the same way with its declared addresses |

## Left out

- The keyword defaults of both `enviar_mensaje` (`protocolo="TCP"`, `puerto_destino=TCP_PORT` or `80`, `app="GENERICA"`) are not Dafny default values. `Network.SendMessage` and `LegacyNetwork.SendMessage` take every argument explicitly, and the menu's calls pass the values the defaults give.
- Console output, the interactive menus (`main`, `input`) and `APP_CODES` are left out. Only what the earlier menu does with the bits is modelled, in `LegacyNetwork.DemoReception` and its mirror.
- The `dispositivo_anterior` parameter is left out: it is passed along and never read.
- The bits of each hop are not stored in a `Hop`. Each hop records the frame, and the peer is proved to receive its exact 8-bit encoding (`Network.SendStep`, `Network.ReceiveBits`).
- Network.Receive and its companions carry a hop fuel. The unbounded recursion of `recibir` and `enviar_por_interfaz` is modelled only up to that many hops; running out gives `OutOfFuel`. In the fixed topology, four hops suffice for either delivery. The model does not prove that more fuel never changes a finished trace.
- `Missing` stands for a connection to a device that is not in the topology, which cannot happen with object references in Python. `NetworkSetup.FixedCabled` shows the fixed topology has none.
- Text.ParseInt models `int()` on an optional sign followed by ASCII digits only. Surrounding whitespace, underscores and non-ASCII digits, which Python also accepts, are left out. `int(x, 2)` in the bit decoder only ever sees binary digits.
- Physical.EncodeBits computes `format(ord(c), '08b')` for every character, but the 8-digits-per-character length law and the round trip through `Physical.DecodeBits` are stated only for 8-bit text. A character above 255 gives more than 8 digits (`Physical.Format08b`), and the 8-digit decoder then splits its digits across characters.
- Physical.DecodeBits requires binary digits. On other characters `int(..., 2)` raises `ValueError`, and that path is not modelled. Nothing in either form produces such bits.
- LegacyNetwork.Attributes replaces `dir(self)` with the string attributes of each class, in alphabetical order: `IP`, `MAC`, `nombre` and the router's four. Methods, dunder names and the two tables are left out. None of them has a name ending in `_MAC` or `_IP`, and none starting with `MAC` or `IP` holds an address.
- The earlier link layer computes the bits of the new frame and never uses them. The model keeps only the frame (`FrameBuilt`).

## Findings

| source | as written | input that shows it | evidently intended | confidence | as-written member | corrected member |
|---|---|---|---|---|---|---|
| encapsulamiento.py:148 | the owned MACs are the attributes whose names end in `_MAC`, and no attribute is named that way (they are `MAC`, `MAC_IZQ`, `MAC_DER`), so a device never recognises a frame as its own | PC2 receiving the bits of `[EN:D:B][RE:1:2][TR:5000][AP:TCP:80]msg` at layer 1 drops it for unknown MAC `B` | the MACs the device declares, the attributes whose names start with `MAC`, as the later form tests with `hasattr` | not executed | LegacyNetwork.Pc2DropsItsOwnFrame | LegacyNetwork.Pc2AcceptsDeclared |
| encapsulamiento.py:168 | the owned IPs are the attributes whose names end in `_IP`, and none is named that way, so no packet ever reaches layer 4 | any packet handed to layer 3 ends with a route found, no route, or an exception | the IPs the device declares, the attributes whose names start with `IP` | not executed | LegacyNetwork.NeverClimbsFromNetwork | LegacyNetwork.DeclaredDelivers |
