/** Whole packets of the state machines as octets: header, directive code and PDU, encoded and decoded. */
module Wire {
  import opened Cfdp
  import opened Crc
  import Codec

  // ---------- what goes along with a packet ----------

  // Whose transaction it is and which way it goes.
  datatype Route = Route(towardsSender: bool, src: uint32, dst: uint32, seqNum: uint32)

  // The entity ID that goes along with an error, and the file names of the metadata.
  datatype Extras = Extras(tlvs: seq<Codec.Tlv>, src: seq<uint8>, dst: seq<uint8>)

  function ToRequests(segs: seq<Seg>): (r: seq<Codec.SegmentRequest>)
    requires forall i :: 0 <= i < |segs| ==> segs[i].start < M && segs[i].end < M
    ensures |r| == |segs|
    ensures forall i :: 0 <= i < |r| ==> r[i] == Codec.SegmentRequest(segs[i].start, segs[i].end)
  {
    if segs == [] then [] else [Codec.SegmentRequest(segs[0].start, segs[0].end)] + ToRequests(segs[1..])
  }

  function FromRequests(srs: seq<Codec.SegmentRequest>): (r: seq<Seg>)
    ensures |r| == |srs|
    ensures forall i :: 0 <= i < |r| ==> r[i] == Seg(srs[i].start, srs[i].end)
  {
    if srs == [] then [] else [Seg(srs[0].start, srs[0].end)] + FromRequests(srs[1..])
  }

  // What the integer types and arrays of the logical PDU structures hold.
  predicate Typed(p: Pdu) {
    match p
    case Metadata(_, size, srcLen, dstLen) => size < M && srcLen < 256 && dstLen < 256
    case FileData(offset, _) => offset < M
    case Eof(_, crc, size) => crc < M && size < M
    case Nak(segs) =>
      |segs| <= Codec.MAX_SEGMENTS && forall i :: 0 <= i < |segs| ==> segs[i].start < M && segs[i].end < M
    case Other(_) => false
    case Garbled(_) => false
    case _ => true
  }

  // The values the fields of the PDU have room for.
  predicate Fits(p: Pdu) {
    match p
    case Eof(cc, _, _) => cc < 16
    case Fin(cc, dc, fs) => cc < 16 && dc < 2 && fs < 4
    case Ack(directive, cc, status) => directive < 16 && cc < 16 && status < 4
    case _ => true
  }

  ghost predicate Proper(p: Pdu, x: Extras) {
    && Typed(p) && Codec.AllTyped(x.tlvs) && |x.tlvs| <= Codec.MAX_TLV
    && (p.Metadata? ==> |x.src| == p.srcLen && |x.dst| == p.dstLen)
  }

  // ---------- the PDU ----------

  function Md(p: Pdu, x: Extras): Codec.MdPdu
    requires p.Metadata? && p.size < M
  {
    Codec.MdPdu(if p.closeReq then 1 else 0, 0, p.size, x.src, x.dst)
  }

  function AckOf(p: Pdu): Codec.AckPdu
    requires p.Ack?
  {
    Codec.AckPdu(p.directive, if p.directive == DIR_FIN then 1 else 0, p.cc, p.status)
  }

  function EncodePdu(s: Codec.CodecState, p: Pdu, x: Extras): Codec.CodecState
    requires Proper(p, x)
  {
    match p
    case Metadata(_, _, _, _) => Codec.EncodeMd(s, Md(p, x))
    case FileData(offset, data) => Codec.EncodeFd(s, offset, data)
    case Eof(cc, crc, size) => Codec.EncodeEof(s, Codec.EofPdu(cc, crc, size, x.tlvs))
    case Fin(cc, dc, fs) => Codec.EncodeFin(s, Codec.FinPdu(cc, dc, fs, x.tlvs))
    case Ack(_, _, _) => Codec.EncodeAck(s, AckOf(p))
    case Nak(segs) => Codec.EncodeNak(s, Codec.NakPdu(0, 0, ToRequests(segs)))
    case _ => s
  }

  // The octets of the PDU behind its directive code.
  ghost function PduBytes(p: Pdu, x: Extras): seq<uint8>
    requires Proper(p, x)
  {
    match p
    case Metadata(_, _, _, _) => Codec.MdFixed(Md(p, x)) + (Codec.LvBytes(x.src) + Codec.LvBytes(x.dst))
    case FileData(offset, data) => Codec.IntBytes(offset, 4) + data
    case Eof(cc, crc, size) => Codec.EofFixed(Codec.EofPdu(cc, crc, size, x.tlvs)) + Codec.TlvsBytes(x.tlvs)
    case Fin(cc, dc, fs) => [Codec.FinOctet(Codec.FinPdu(cc, dc, fs, x.tlvs))] + Codec.TlvsBytes(x.tlvs)
    case Ack(_, _, _) => Codec.AckOctets(AckOf(p))
    case Nak(segs) =>
      Codec.NakFixed(Codec.NakPdu(0, 0, ToRequests(segs))) + Codec.SegsBytes(ToRequests(segs))
    case _ => []
  }

  // What the receiving end makes of a directive code and the octets behind it; a
  // PDU that is too short is garbled.
  function DecodeDirective(s: Codec.CodecState, code: nat): Pdu {
    if code == DIR_METADATA then
      var (t, p) := Codec.DecodeMd(s);
      if t.valid then Metadata(p.closeReq != 0, p.size, |p.src|, |p.dst|) else Garbled(code)
    else if code == DIR_EOF then
      var (t, p) := Codec.DecodeEof(s);
      if t.valid then Eof(p.cc, p.crc, p.size) else Garbled(code)
    else if code == DIR_FIN then
      var (t, p) := Codec.DecodeFin(s);
      if t.valid then Fin(p.cc, p.dc, p.fs) else Garbled(code)
    else if code == DIR_ACK then
      var (t, p) := Codec.DecodeAck(s);
      if t.valid then Ack(p.directive, p.cc, p.status) else Garbled(code)
    else if code == DIR_NAK then
      var (t, p) := Codec.DecodeNak(s);
      if t.valid then Nak(FromRequests(p.segs)) else Garbled(code)
    else Other(code)
  }

  // CF_CFDP_RecvFd: a checksum behind the data is cut off, segment metadata are rejected.
  function DecodeData(s: Codec.CodecState, crcFlag: nat, segMeta: nat): Pdu
    requires s.next <= |s.buf|
  {
    var (t, offset, data) := Codec.DecodeFd(s);
    if segMeta != 0 || !t.valid || (crcFlag != 0 && |data| < 4) then Garbled(0)
    else FileData(offset, if crcFlag != 0 then data[..|data| - 4] else data)
  }

  // ---------- the packet ----------

  // CF_CFDP_GetValueEncodedSize for 32 bits.
  function Octets(v: uint32): (n: nat)
    ensures 1 <= n <= 4 && v < Codec.Pow256(n) && (n == 1 || Codec.Pow256(n - 1) <= v)
  {
    PowersOf256();
    if v < 0x100 then 1 else if v < 0x1_0000 then 2 else if v < 0x100_0000 then 3 else 4
  }

  lemma PowersOf256()
    ensures Codec.Pow256(1) == 0x100 && Codec.Pow256(2) == 0x1_0000 && Codec.Pow256(3) == 0x100_0000
    ensures Codec.Pow256(4) == M
  {
    assert Codec.Pow256(0) == 1 && Codec.Pow256(1) == 0x100;
    assert Codec.Pow256(2) == 0x1_0000;
    assert Codec.Pow256(3) == 0x100_0000;
  }

  // Both entity IDs take as many octets as the greater one needs.
  function EntityOctets(r: Route): nat { Octets(if r.dst < r.src then r.src else r.dst) }

  // The header CF_CFDP_ConstructPduHeader makes; the type bit tells file data.
  function HeaderOf(r: Route, pkt: Packet, len: nat): Codec.Header {
    Codec.Header(1, if pkt.pdu.IsFileData() then 1 else 0, if r.towardsSender then 1 else 0,
                 if pkt.unacknowledged then 1 else 0, 0, 0, 0,
                 EntityOctets(r), 0, Octets(r.seqNum), len, r.src, r.dst, r.seqNum)
  }

  function Code(p: Pdu): uint8
    requires !p.IsFileData()
  {
    p.Directive() % 256
  }

  // Header, directive code and PDU into a buffer, and the size at last.
  function EncodePacket(buf: seq<uint8>, r: Route, pkt: Packet, x: Extras): (Codec.CodecState, seq<uint8>)
    requires Proper(pkt.pdu, x)
  {
    var a := Codec.EncodeHeader(Codec.CodecState(true, 0, buf), HeaderOf(r, pkt, 0));
    var b := if pkt.pdu.IsFileData() then a else Codec.Write(a, [Code(pkt.pdu)]);
    var c := EncodePdu(b, pkt.pdu, x);
    var f := Codec.FinalSize(c, if a.next <= c.next then c.next - a.next else 0);
    (c, if f.next <= |f.buf| then f.buf[..f.next] else [])
  }

  datatype Received = Rejected | Received(route: Route, pkt: Packet)

  // CF_CFDP_RecvPh and the decoders of the PDUs: nothing is known of the octets.
  function DecodePacket(octets: seq<uint8>): Received {
    var (s, ok, h) := Codec.DecodeHeader(Codec.CodecState(true, 0, octets));
    if !ok || !s.valid || h.largeFlag != 0 then Rejected
    else
      var r := Route(h.direction != 0, h.src, h.dst, h.seqNum);
      if h.pduType == 0 then
        var (t, d) := Codec.Read(s, 1);
        if t.valid then Received(r, Packet(h.mode != 0, DecodeDirective(t, d[0]))) else Rejected
      else if s.next <= |s.buf| then Received(r, Packet(h.mode != 0, DecodeData(s, h.crcFlag, h.segMeta)))
      else Rejected
  }

  // ---------- what is emitted ----------

  lemma PduEmits(s: Codec.CodecState, p: Pdu, x: Extras)
    requires Proper(p, x)
    ensures Codec.Ready(s) ==> Codec.Emits(s, EncodePdu(s, p, x), PduBytes(p, x))
    ensures !s.valid ==> !EncodePdu(s, p, x).valid
  {
    hide Codec.EncodeMd, Codec.EncodeFd, Codec.EncodeEof, Codec.EncodeFin, Codec.EncodeAck, Codec.EncodeNak;
    hide Codec.Emits, Codec.MdFixed, Codec.EofFixed, Codec.FinOctet, Codec.AckOctets, Codec.NakFixed;
    hide Codec.TlvsBytes, Codec.SegsBytes, Codec.LvBytes, Codec.IntBytes;
    match p {
      case Metadata(_, _, _, _) => MdOut(s, Md(p, x));
      case FileData(offset, data) => FdOut(s, offset, data);
      case Eof(cc, crc, size) => EofOut(s, Codec.EofPdu(cc, crc, size, x.tlvs));
      case Fin(cc, dc, fs) => FinOut(s, Codec.FinPdu(cc, dc, fs, x.tlvs));
      case Ack(_, _, _) => AckOut(s, AckOf(p));
      case Nak(segs) => NakOut(s, Codec.NakPdu(0, 0, ToRequests(segs)));
    }
  }

  lemma MdOut(s: Codec.CodecState, p: Codec.MdPdu)
    requires |p.src| < 256 && |p.dst| < 256
    ensures Codec.Ready(s) ==>
              Codec.Emits(s, Codec.EncodeMd(s, p), Codec.MdFixed(p) + (Codec.LvBytes(p.src) + Codec.LvBytes(p.dst)))
    ensures !s.valid ==> !Codec.EncodeMd(s, p).valid
  {
    hide Codec.MdFixed, Codec.LvBytes;
    if Codec.Ready(s) {
      Codec.MdEmits(s, p);
    }
  }

  lemma FdOut(s: Codec.CodecState, offset: uint32, data: seq<uint8>)
    ensures Codec.Emits(s, Codec.EncodeFd(s, offset, data), Codec.IntBytes(offset, 4) + data)
  {
    Codec.Emits2(s, Codec.IntBytes(offset, 4), data);
  }

  lemma EofOut(s: Codec.CodecState, p: Codec.EofPdu)
    requires Codec.AllTyped(p.tlvs)
    ensures Codec.Ready(s) ==> Codec.Emits(s, Codec.EncodeEof(s, p), Codec.EofFixed(p) + Codec.TlvsBytes(p.tlvs))
    ensures !s.valid ==> !Codec.EncodeEof(s, p).valid
  {
    hide Codec.EofFixed, Codec.TlvsBytes, Codec.EncodeTlvs;
    if Codec.Ready(s) {
      Codec.EmitsList(s, Codec.EofFixed(p), Codec.Write(s, Codec.EofFixed(p)), p.tlvs, Codec.EncodeEof(s, p));
    }
  }

  lemma FinOut(s: Codec.CodecState, p: Codec.FinPdu)
    requires Codec.AllTyped(p.tlvs)
    ensures Codec.Ready(s) ==> Codec.Emits(s, Codec.EncodeFin(s, p), [Codec.FinOctet(p)] + Codec.TlvsBytes(p.tlvs))
    ensures !s.valid ==> !Codec.EncodeFin(s, p).valid
  {
    hide Codec.FinOctet, Codec.TlvsBytes, Codec.EncodeTlvs;
    if Codec.Ready(s) {
      Codec.EmitsList(s, [Codec.FinOctet(p)], Codec.Write(s, [Codec.FinOctet(p)]), p.tlvs, Codec.EncodeFin(s, p));
    }
  }

  lemma AckOut(s: Codec.CodecState, p: Codec.AckPdu)
    ensures Codec.Emits(s, Codec.EncodeAck(s, p), Codec.AckOctets(p))
  {
    Codec.EmitsWrite(s, Codec.AckOctets(p));
  }

  lemma NakOut(s: Codec.CodecState, p: Codec.NakPdu)
    ensures Codec.Ready(s) ==> Codec.Emits(s, Codec.EncodeNak(s, p), Codec.NakFixed(p) + Codec.SegsBytes(p.segs))
    ensures !s.valid ==> !Codec.EncodeNak(s, p).valid
  {
    hide Codec.NakFixed, Codec.SegsBytes, Codec.EncodeSegs;
    if Codec.Ready(s) {
      var fixed := Codec.NakFixed(p);
      var a := Codec.Write(s, fixed);
      Codec.EmitsWrite(s, fixed);
      if a.valid {
        Codec.WriteFits(s, fixed);
        Codec.SegsEmit(a, p.segs);
      }
      Codec.EmitsThen(s, fixed, a, Codec.SegsBytes(p.segs), Codec.EncodeNak(s, p));
    }
  }

  // ---------- what is decoded ----------

  // The PDU with its fields cut to their bits.
  function Cut(p: Pdu): Pdu {
    match p
    case Eof(cc, crc, size) => Eof(cc % 16, crc, size)
    case Fin(cc, dc, fs) => WireFin(cc, dc, fs)
    case Ack(directive, cc, status) => Ack(directive % 16, cc % 16, status % 4)
    case _ => p
  }

  lemma CutIff(p: Pdu)
    ensures Cut(p) == p <==> Fits(p)
  {
  }

  // The octets of a PDU lie ahead, and the packet ends with them.
  ghost predicate EndsWith(s: Codec.CodecState, d: seq<uint8>) { Codec.Ahead(s, d) && s.next + |d| == |s.buf| }

  lemma PduDecodes(s: Codec.CodecState, p: Pdu, x: Extras)
    requires Proper(p, x) && !p.IsFileData() && EndsWith(s, PduBytes(p, x))
    ensures DecodeDirective(s, Code(p)) == Cut(p)
  {
    hide Codec.DecodeMd, Codec.DecodeEof, Codec.DecodeFin, Codec.DecodeAck, Codec.DecodeNak, EndsWith;
    hide Codec.MdFixed, Codec.EofFixed, Codec.FinOctet, Codec.AckOctets, Codec.NakFixed;
    hide Codec.TlvsBytes, Codec.SegsBytes, Codec.LvBytes;
    match p {
      case Metadata(_, _, _, _) => MdIn(s, Md(p, x));
      case Eof(cc, crc, size) => EofIn(s, Codec.EofPdu(cc, crc, size, x.tlvs));
      case Fin(cc, dc, fs) => FinIn(s, Codec.FinPdu(cc, dc, fs, x.tlvs));
      case Ack(_, _, _) => AckIn(s, AckOf(p));
      case Nak(segs) => NakIn(s, Codec.NakPdu(0, 0, ToRequests(segs))); assert FromRequests(ToRequests(segs)) == segs;
    }
  }

  lemma MdIn(s: Codec.CodecState, p: Codec.MdPdu)
    requires |p.src| < 256 && |p.dst| < 256
    requires EndsWith(s, Codec.MdFixed(p) + (Codec.LvBytes(p.src) + Codec.LvBytes(p.dst)))
    ensures var (t, q) := Codec.DecodeMd(s);
            t.valid && q == Codec.MdPdu(p.closeReq % 2, p.checksumType % 16, p.size, p.src, p.dst)
  {
    hide Codec.MdFixed, Codec.DecodeLv, Codec.Read, Codec.Field, Codec.IntOf, Codec.LvBytes, Codec.Ahead;
    Codec.AheadSplit(s, Codec.MdFixed(p), Codec.LvBytes(p.src) + Codec.LvBytes(p.dst));
    Codec.AheadSplit(Codec.Skip(s, 5), Codec.LvBytes(p.src), Codec.LvBytes(p.dst));
    Codec.LvDecodes(Codec.Skip(s, 5), p.src);
    Codec.LvDecodes(Codec.Skip(Codec.Skip(s, 5), |Codec.LvBytes(p.src)|), p.dst);
    Codec.MdFields(p);
    Codec.AheadValid(s, Codec.MdFixed(p) + (Codec.LvBytes(p.src) + Codec.LvBytes(p.dst)));
  }

  lemma EofIn(s: Codec.CodecState, p: Codec.EofPdu)
    requires Codec.AllTyped(p.tlvs) && |p.tlvs| <= Codec.MAX_TLV
    requires EndsWith(s, Codec.EofFixed(p) + Codec.TlvsBytes(p.tlvs))
    ensures var (t, q) := Codec.DecodeEof(s);
            t.valid && q.cc == p.cc % 16 && q.crc == p.crc && q.size == p.size
  {
    hide Codec.EofFixed, Codec.DecodeTlvs, Codec.TlvsBytes, Codec.Read, Codec.Field, Codec.IntOf, Codec.Ahead;
    Codec.DecodesList(s, Codec.EofFixed(p), p.tlvs);
    Codec.EofFields(p);
    Codec.AheadValid(s, Codec.EofFixed(p) + Codec.TlvsBytes(p.tlvs));
  }

  lemma FinIn(s: Codec.CodecState, p: Codec.FinPdu)
    requires Codec.AllTyped(p.tlvs) && |p.tlvs| <= Codec.MAX_TLV
    requires EndsWith(s, [Codec.FinOctet(p)] + Codec.TlvsBytes(p.tlvs))
    ensures var (t, q) := Codec.DecodeFin(s);
            t.valid && q.cc == p.cc % 16 && q.dc == p.dc % 2 && q.fs == p.fs % 4
  {
    hide Codec.FinOctet, Codec.DecodeTlvs, Codec.TlvsBytes, Codec.Read, Codec.Field, Codec.Ahead;
    Codec.DecodesList(s, [Codec.FinOctet(p)], p.tlvs);
    Codec.FinFields(p);
    Codec.AheadValid(s, [Codec.FinOctet(p)] + Codec.TlvsBytes(p.tlvs));
  }

  lemma AckIn(s: Codec.CodecState, p: Codec.AckPdu)
    requires EndsWith(s, Codec.AckOctets(p))
    ensures var (t, q) := Codec.DecodeAck(s);
            t.valid && q == Codec.AckPdu(p.directive % 16, p.subtype % 16, p.cc % 16, p.status % 4)
  {
    hide Codec.AckOctets, Codec.Read, Codec.Field, Codec.Ahead;
    Codec.AckFields(p);
    assert Codec.AckOctets(p) + [] == Codec.AckOctets(p);
    Codec.AheadSplit(s, Codec.AckOctets(p), []);
    Codec.AheadValid(s, Codec.AckOctets(p));
  }

  lemma NakIn(s: Codec.CodecState, p: Codec.NakPdu)
    requires |p.segs| <= Codec.MAX_SEGMENTS && EndsWith(s, Codec.NakFixed(p) + Codec.SegsBytes(p.segs))
    ensures var (t, q) := Codec.DecodeNak(s);
            t.valid && q == p
  {
    hide Codec.DecodeSegs, Codec.SegsBytes, Codec.Read, Codec.IntOf, Codec.IntBytes, Codec.Ahead;
    var fixed := Codec.NakFixed(p);
    Codec.AheadSplit(s, fixed, Codec.SegsBytes(p.segs));
    Codec.SegsDecode(Codec.Skip(s, 8), p.segs, Codec.MAX_SEGMENTS);
    assert fixed[..4] == Codec.IntBytes(p.scopeStart, 4) && fixed[4..] == Codec.IntBytes(p.scopeEnd, 4);
    Codec.Survives32(p.scopeStart);
    Codec.Survives32(p.scopeEnd);
    Codec.AheadValid(s, fixed + Codec.SegsBytes(p.segs));
  }

  lemma DataDecodes(s: Codec.CodecState, p: Pdu, x: Extras)
    requires Proper(p, x) && p.FileData? && s.next <= |s.buf| && EndsWith(s, PduBytes(p, x))
    ensures DecodeData(s, 0, 0) == p
  {
    hide Codec.Read, Codec.IntOf, Codec.IntBytes, Codec.Ahead;
    var offset := Codec.IntBytes(p.offset, 4);
    Codec.AheadSplit(s, offset, p.data);
    assert p.data + [] == p.data;
    Codec.AheadSplit(Codec.Skip(s, 4), p.data, []);
    Codec.Survives32(p.offset);
    Codec.AheadValid(s, offset + p.data);
  }

  // A peer that adds a checksum of four octets: they are cut off the data, and file data
  // without room for one, or with segment metadata, are not taken.
  lemma ChecksumCut(s: Codec.CodecState, offset: uint32, data: seq<uint8>, tail: seq<uint8>)
    requires s.next <= |s.buf| && EndsWith(s, Codec.IntBytes(offset, 4) + (data + tail))
    ensures |tail| == 4 ==> DecodeData(s, 1, 0) == FileData(offset, data)
    ensures |data + tail| < 4 ==> DecodeData(s, 1, 0) == Garbled(0)
    ensures DecodeData(s, 0, 0) == FileData(offset, data + tail)
    ensures DecodeData(s, 0, 1) == DecodeData(s, 1, 1) == Garbled(0)
  {
    hide Codec.DecodeFd, EndsWith;
    DataDecodes(s, FileData(offset, data + tail), Extras([], [], []));
    assert |tail| == 4 ==> (data + tail)[..|data|] == data;
  }

  // ---------- the round trip ----------

  // What stands behind the header.
  ghost function Body(p: Pdu, x: Extras): seq<uint8>
    requires Proper(p, x)
  {
    if p.IsFileData() then PduBytes(p, x) else [Code(p)] + PduBytes(p, x)
  }

  // Everything behind the header is one chunk.
  lemma BodyWritten(a: Codec.CodecState, p: Pdu, x: Extras)
    requires Proper(p, x) && (a.valid ==> a.next <= |a.buf|)
    ensures var b := if p.IsFileData() then a else Codec.Write(a, [Code(p)]);
            EncodePdu(b, p, x).valid ==> a.valid && EncodePdu(b, p, x) == Codec.Write(a, Body(p, x))
  {
    hide EncodePdu, PduBytes, Codec.Write, Proper;
    var b := if p.IsFileData() then a else Codec.Write(a, [Code(p)]);
    PduEmits(b, p, x);
    if EncodePdu(b, p, x).valid {
      if !p.IsFileData() {
        Codec.EmitsWrite(a, [Code(p)]);
        Codec.WriteFits(a, [Code(p)]);
        Codec.EmitsThen(a, [Code(p)], b, PduBytes(p, x), EncodePdu(b, p, x));
      }
    }
  }

  lemma HeaderFits(r: Route, pkt: Packet, len: nat)
    requires len < 0x1_0000
    ensures Codec.HeaderInRange(HeaderOf(r, pkt, len))
  {
    hide Codec.Pow256;
    var widest := if r.dst < r.src then r.src else r.dst;
    assert widest < Codec.Pow256(Octets(widest));
  }

  lemma SameHeader(s: Codec.CodecState, r: Route, pkt: Packet, len: nat)
    ensures Codec.EncodeHeader(s, HeaderOf(r, pkt, 0)) == Codec.EncodeHeader(s, HeaderOf(r, pkt, len))
  {
    hide Codec.Write, Codec.IntBytes, Codec.Placed;
  }

  lemma BodyAhead(d: Codec.CodecState, octets: seq<uint8>, k: nat, body: seq<uint8>)
    requires k <= |octets| && octets[k..] == body && d == Codec.CodecState(true, k, octets)
    ensures EndsWith(d, body)
  {
  }

  // Any packet with at most as many TLVs and segment requests as the PDU structures
  // hold, encoded into a PDU buffer with room for it: from the octets alone the
  // other end reads whose transaction it is, the mode, the kind of PDU, and the PDU
  // with its fields cut to their bits; so it reads the same packet if and only if
  // the fields fit.
  lemma PacketSurvivesIff(buf: seq<uint8>, r: Route, pkt: Packet, x: Extras)
    requires Proper(pkt.pdu, x) && |buf| <= 0x1_0000
    ensures var (c, octets) := EncodePacket(buf, r, pkt, x);
            c.valid ==>
              && DecodePacket(octets) == Received(r, Packet(pkt.unacknowledged, Cut(pkt.pdu)))
              && (DecodePacket(octets) == Received(r, pkt) <==> Fits(pkt.pdu))
  {
    hide EncodePdu, PduBytes, Codec.Write, Codec.EncodeHeader, Codec.DecodeHeader, Codec.FinalSize, Codec.Read;
    hide DecodeDirective, DecodeData, Proper, Codec.HeaderInRange, Code, Cut, Octets;
    var s := Codec.CodecState(true, 0, buf);
    var a := Codec.EncodeHeader(s, HeaderOf(r, pkt, 0));
    var (c, octets) := EncodePacket(buf, r, pkt, x);
    HeaderState(s, HeaderOf(r, pkt, 0));
    BodyWritten(a, pkt.pdu, x);
    CutIff(pkt.pdu);
    if c.valid {
      var body := Body(pkt.pdu, x);
      BodyLength(a, body);
      var len := |body|;
      SameHeader(s, r, pkt, len);
      HeaderFits(r, pkt, len);
      Codec.HeaderRoundTrip(s, HeaderOf(r, pkt, len), body);
      var d := Codec.DecodeHeader(Codec.CodecState(true, 0, octets)).0;
      BodyAhead(d, octets, d.next, body);
      if pkt.pdu.IsFileData() {
        DataUncut(pkt.pdu, x);
        DataDecodes(d, pkt.pdu, x);
      } else {
        DirectiveAhead(d, Code(pkt.pdu), PduBytes(pkt.pdu, x));
        PduDecodes(Codec.Skip(d, 1), pkt.pdu, x);
      }
    }
  }

  lemma HeaderState(s: Codec.CodecState, h: Codec.Header)
    requires s.valid && s.next == 0 && 0 < h.eidLen <= 8 && 0 < h.seqLen <= 8
    ensures var t := Codec.EncodeHeader(s, h);
            |t.buf| == |s.buf| && (t.valid ==> t.next <= |t.buf| && 4 <= t.next)
  {
    hide Codec.IntBytes, Codec.Placed;
  }

  lemma BodyLength(a: Codec.CodecState, body: seq<uint8>)
    requires a.valid && 4 <= a.next <= |a.buf| <= 0x1_0000 && Codec.Write(a, body).valid
    ensures Codec.Write(a, body).next == a.next + |body| && |body| < 0x1_0000
  {
  }

  lemma DataUncut(p: Pdu, x: Extras)
    requires Proper(p, x) && p.IsFileData()
    ensures Cut(p) == p && p.FileData?
  {
  }

  lemma DirectiveAhead(d: Codec.CodecState, code: uint8, rest: seq<uint8>)
    requires EndsWith(d, [code] + rest)
    ensures Codec.Read(d, 1) == (Codec.Skip(d, 1), [code]) && EndsWith(Codec.Skip(d, 1), rest)
    ensures Codec.Skip(d, 1).valid
  {
    hide Codec.Read;
    Codec.AheadSplit(d, [code], rest);
    Codec.AheadValid(d, [code] + rest);
  }

  // ---------- the octets themselves ----------

  // Octets of the header of a packet; what follows it is the PDU.
  function HeaderSize(r: Route): nat { 4 + 2 * EntityOctets(r) + Octets(r.seqNum) }

  lemma PacketIs(buf: seq<uint8>, r: Route, pkt: Packet, x: Extras)
    requires Proper(pkt.pdu, x) && |buf| <= 0x1_0000
    ensures var (c, octets) := EncodePacket(buf, r, pkt, x);
            var body := Body(pkt.pdu, x);
            var h := HeaderOf(r, pkt, |body|);
            c.valid ==>
              && |body| < 0x1_0000
              && octets == Codec.HeaderFixed(h, |body| / 256, |body| % 256) + (Codec.Ids(h) + body)
  {
    hide EncodePdu, PduBytes, Codec.Write, Codec.EncodeHeader, Codec.FinalSize, Proper, Code, Octets;
    hide Codec.HeaderFixed, Codec.Ids;
    var s := Codec.CodecState(true, 0, buf);
    var a := Codec.EncodeHeader(s, HeaderOf(r, pkt, 0));
    var (c, octets) := EncodePacket(buf, r, pkt, x);
    HeaderState(s, HeaderOf(r, pkt, 0));
    BodyWritten(a, pkt.pdu, x);
    if c.valid {
      var body := Body(pkt.pdu, x);
      BodyLength(a, body);
      var h := HeaderOf(r, pkt, |body|);
      SameHeader(s, r, pkt, |body|);
      Codec.HeaderEmits(s, h);
      Codec.EmitsInvalid(s, a, Codec.HeaderFixed(h, s.buf[1], s.buf[2]) + Codec.Ids(h), body);
      Codec.HeaderOctets(s, h, a, c, body);
    }
  }

  // The first octets of every packet sent: version 1 in three bits, whether it holds
  // file data, whether it goes to the sender, the mode and two zero bits; the length of
  // all that follows the header; both lengths less one; and behind the identifiers the
  // directive code, if it is one.
  lemma HeaderSays(buf: seq<uint8>, r: Route, pkt: Packet, x: Extras)
    requires Proper(pkt.pdu, x) && |buf| <= 0x1_0000
    ensures var (c, octets) := EncodePacket(buf, r, pkt, x);
            c.valid ==>
              && HeaderSize(r) < |octets|
              && octets[0] == 32 + (if pkt.pdu.FileData? then 16 else 0) + (if r.towardsSender then 8 else 0)
                              + (if pkt.unacknowledged then 4 else 0)
              && 256 * (octets[1] as nat) + octets[2] as nat == |octets| - HeaderSize(r)
              && octets[3] == 16 * (EntityOctets(r) - 1) + Octets(r.seqNum) - 1
              && (!pkt.pdu.FileData? ==> octets[HeaderSize(r)] == pkt.pdu.Directive())
  {
    hide EncodePacket, PduBytes, Proper, Octets, Codec.IntBytes, Codec.FlagsOctet, Codec.LengthsOctet;
    PacketIs(buf, r, pkt, x);
    var body := Body(pkt.pdu, x);
    var h := HeaderOf(r, pkt, |body|);
    FlagsAre(r, pkt, |body|);
    LengthsAre(r, pkt, |body|);
    BodyStarts(pkt.pdu, x);
  }

  lemma FlagsAre(r: Route, pkt: Packet, len: nat)
    ensures Codec.FlagsOctet(HeaderOf(r, pkt, len))
         == 32 + (if pkt.pdu.IsFileData() then 16 else 0) + (if r.towardsSender then 8 else 0)
            + (if pkt.unacknowledged then 4 else 0)
  {
    hide Octets;
  }

  lemma LengthsAre(r: Route, pkt: Packet, len: nat)
    ensures Codec.LengthsOctet(HeaderOf(r, pkt, len))
         == 16 * (EntityOctets(r) - 1) + Octets(r.seqNum) - 1
  {
    hide Octets;
  }

  lemma BodyStarts(p: Pdu, x: Extras)
    requires Proper(p, x)
    ensures 0 < |Body(p, x)| && (p.IsFileData() <==> p.FileData?)
    ensures !p.FileData? ==> Body(p, x)[0] == p.Directive()
  {
    hide Codec.MdFixed, Codec.EofFixed, Codec.FinOctet, Codec.AckOctets, Codec.NakFixed;
    hide Codec.TlvsBytes, Codec.SegsBytes, Codec.LvBytes, Codec.IntBytes;
  }

  // What follows the directive code: of an ACK the directive it is for, subtype 1
  // exactly for a FIN, condition code and status; of a FIN and of an EOF their codes.
  lemma CodesSay(buf: seq<uint8>, r: Route, pkt: Packet, x: Extras)
    requires Proper(pkt.pdu, x) && |buf| <= 0x1_0000 && Fits(pkt.pdu)
    ensures var (c, octets) := EncodePacket(buf, r, pkt, x);
            var k := HeaderSize(r) + 1;
            c.valid ==>
              && (pkt.pdu.Ack? ==>
                    && |octets| == k + 2
                    && octets[k] == 16 * pkt.pdu.directive + (if pkt.pdu.directive == DIR_FIN then 1 else 0)
                    && octets[k + 1] == 16 * pkt.pdu.cc + pkt.pdu.status)
              && (pkt.pdu.Fin? ==> k < |octets| && octets[k] == 16 * pkt.pdu.cc + 4 * pkt.pdu.dc + pkt.pdu.fs)
              && (pkt.pdu.Eof? ==> k < |octets| && octets[k] == 16 * pkt.pdu.cc)
  {
    hide EncodePacket, PduBytes, Proper, Octets, Codec.IntBytes, Codec.FlagsOctet, Codec.LengthsOctet;
    PacketIs(buf, r, pkt, x);
    BodyCodes(pkt.pdu, x);
  }

  lemma BodyCodes(p: Pdu, x: Extras)
    requires Proper(p, x) && Fits(p)
    ensures var body := Body(p, x);
            && (p.Ack? ==> |body| == 3 && body[1] == 16 * p.directive + (if p.directive == DIR_FIN then 1 else 0)
                           && body[2] == 16 * p.cc + p.status)
            && (p.Fin? ==> 1 < |body| && body[1] == 16 * p.cc + 4 * p.dc + p.fs)
            && (p.Eof? ==> 1 < |body| && body[1] == 16 * p.cc)
  {
    hide Codec.TlvsBytes, Codec.SegsBytes, Codec.LvBytes, Codec.IntBytes, Codec.Placed, Codec.MdFixed, Codec.NakFixed;
    match p {
      case Ack(_, _, _) => FourBits(p.directive, p.cc, p.status);
      case Fin(cc, dc, fs) => FinCode(cc, dc, fs, x.tlvs);
      case Eof(cc, _, _) => FourBits(0, cc, 0);
      case _ =>
    }
  }

  // The same field by field: where each number and each name stands in a packet.
  lemma FieldsSay(buf: seq<uint8>, r: Route, pkt: Packet, x: Extras)
    requires Proper(pkt.pdu, x) && |buf| <= 0x1_0000
    ensures var (c, octets) := EncodePacket(buf, r, pkt, x);
            var h := HeaderSize(r);
            c.valid ==>
              && h < |octets|
              && octets[4..h] == Codec.IntBytes(r.src, EntityOctets(r)) + Codec.IntBytes(r.seqNum, Octets(r.seqNum))
                                 + Codec.IntBytes(r.dst, EntityOctets(r))
              && FieldsAt(octets[h..], pkt.pdu, x)
  {
    hide EncodePacket, PduBytes, Proper, Codec.IntBytes, Octets, Codec.FlagsOctet, Codec.LengthsOctet;
    hide FieldsAt;
    PacketIs(buf, r, pkt, x);
    BodyStarts(pkt.pdu, x);
    BodyFields(pkt.pdu, x);
    var (c, octets) := EncodePacket(buf, r, pkt, x);
    if c.valid {
      assert octets[HeaderSize(r)..] == Body(pkt.pdu, x);
    }
  }

  // Four octets from the k-th on as a number.
  function Number(d: seq<uint8>, k: nat): nat
    requires k + 4 <= |d|
  {
    0x100_0000 * (d[k] as nat) + 0x1_0000 * (d[k + 1] as nat) + 0x100 * (d[k + 2] as nat) + d[k + 3] as nat
  }

  ghost predicate FieldsAt(d: seq<uint8>, p: Pdu, x: Extras) {
    match p
    case Metadata(closeReq, size, srcLen, dstLen) =>
      && |d| == 8 + |x.src| + |x.dst| && d[1] == (if closeReq then 128 else 0) && Number(d, 2) == size
      && d[6] as nat == |x.src| && d[7..7 + |x.src|] == x.src
      && d[7 + |x.src|] as nat == |x.dst| && d[8 + |x.src|..] == x.dst
    case FileData(offset, data) => 4 <= |d| && Number(d, 0) == offset && d[4..] == data
    case Eof(_, crc, size) => 10 <= |d| && Number(d, 2) == crc && Number(d, 6) == size
    case Nak(segs) =>
      && |d| == 9 + 8 * |segs|
      && forall i :: 0 <= i < |segs| ==> Number(d, 9 + 8 * i) == segs[i].start && Number(d, 13 + 8 * i) == segs[i].end
    case _ => true
  }

  lemma BodyFields(p: Pdu, x: Extras)
    requires Proper(p, x)
    ensures FieldsAt(Body(p, x), p, x)
  {
    hide Codec.TlvsBytes, Codec.SegsBytes, Codec.IntBytes, Codec.Placed;
    match p {
      case Metadata(closeReq, size, _, _) =>
        NumberIs([DIR_METADATA, if closeReq then 128 else 0], size, Codec.LvBytes(x.src) + Codec.LvBytes(x.dst));
        MdBody(p, x);
      case FileData(offset, data) => NumberIs([], offset, data);
      case Eof(cc, crc, size) => EofBody(p, x);
      case Nak(segs) => NakBody(p, x);
      case _ =>
    }
  }

  lemma EofBody(p: Pdu, x: Extras)
    requires Proper(p, x) && p.Eof?
    ensures FieldsAt(Body(p, x), p, x)
  {
    hide Codec.TlvsBytes, Codec.IntBytes, Codec.Placed, Number;
    var crc, size, rest := Codec.IntBytes(p.crc, 4), Codec.IntBytes(p.size, 4), Codec.TlvsBytes(x.tlvs);
    var first := Codec.EofFixed(Codec.EofPdu(p.cc, p.crc, p.size, x.tlvs))[..1];
    assert Codec.EofFixed(Codec.EofPdu(p.cc, p.crc, p.size, x.tlvs)) == first + crc + size;
    TwoNumbers(DIR_EOF, first, p.crc, p.size, rest);
  }

  lemma TwoNumbers(code: uint8, first: seq<uint8>, a: uint32, b: uint32, rest: seq<uint8>)
    requires |first| == 1
    ensures var d := [code] + (first + Codec.IntBytes(a, 4) + Codec.IntBytes(b, 4) + rest);
            Number(d, 2) == a && Number(d, 6) == b
  {
    hide Codec.IntBytes, Number;
    var x, y := Codec.IntBytes(a, 4), Codec.IntBytes(b, 4);
    NumberIs([code] + first, a, y + rest);
    NumberIs([code] + first + x, b, rest);
    assert [code] + (first + x + y + rest) == [code] + first + x + (y + rest);
    assert [code] + (first + x + y + rest) == [code] + first + x + y + rest;
  }

  lemma MdBody(p: Pdu, x: Extras)
    requires Proper(p, x) && p.Metadata?
    ensures var d := Body(p, x);
            && d == [DIR_METADATA, if p.closeReq then 128 else 0] + Codec.IntBytes(p.size, 4)
                    + (Codec.LvBytes(x.src) + Codec.LvBytes(x.dst))
            && |d| == 8 + |x.src| + |x.dst| && d[6] as nat == |x.src| && d[7..7 + |x.src|] == x.src
            && d[7 + |x.src|] as nat == |x.dst| && d[8 + |x.src|..] == x.dst
  {
    hide Codec.IntBytes, Codec.MdFixed;
    MdFirst(p, x);
    var d, flag: uint8, size := Body(p, x), if p.closeReq then 128 else 0, Codec.IntBytes(p.size, 4);
    assert d == [DIR_METADATA, flag] + size + (Codec.LvBytes(x.src) + Codec.LvBytes(x.dst));
    Names([DIR_METADATA, flag] + size, x.src, x.dst);
  }

  lemma MdFirst(p: Pdu, x: Extras)
    requires p.Metadata? && p.size < M
    ensures Codec.MdFixed(Md(p, x)) == [if p.closeReq then 128 else 0] + Codec.IntBytes(p.size, 4)
  {
    hide Codec.IntBytes;
  }

  lemma Names(front: seq<uint8>, src: seq<uint8>, dst: seq<uint8>)
    requires |src| < 256 && |dst| < 256
    ensures var d, n := front + (Codec.LvBytes(src) + Codec.LvBytes(dst)), |front|;
            && |d| == n + 2 + |src| + |dst| && d[n] as nat == |src| && d[n + 1..n + 1 + |src|] == src
            && d[n + 1 + |src|] as nat == |dst| && d[n + 2 + |src|..] == dst
  {
  }

  lemma NakBody(p: Pdu, x: Extras)
    requires Proper(p, x) && p.Nak?
    ensures FieldsAt(Body(p, x), p, x)
  {
    hide Codec.IntBytes, Codec.SegsBytes;
    var d, srs := Body(p, x), ToRequests(p.segs);
    var front := [DIR_NAK] + Codec.NakFixed(Codec.NakPdu(0, 0, srs));
    assert d == front + Codec.SegsBytes(srs);
    forall i | 0 <= i < |p.segs|
      ensures Number(d, 9 + 8 * i) == p.segs[i].start && Number(d, 13 + 8 * i) == p.segs[i].end
    {
      var a, b := SegAt(srs, i);
      NumberIs(front + a, srs[i].start, Codec.IntBytes(srs[i].end, 4) + b);
      NumberIs(front + a + Codec.IntBytes(srs[i].start, 4), srs[i].end, b);
      assert d == front + a + Codec.IntBytes(srs[i].start, 4) + (Codec.IntBytes(srs[i].end, 4) + b);
      assert d == front + a + Codec.IntBytes(srs[i].start, 4) + Codec.IntBytes(srs[i].end, 4) + b;
    }
  }

  lemma {:induction false} SegAt(srs: seq<Codec.SegmentRequest>, i: nat) returns (a: seq<uint8>, b: seq<uint8>)
    requires i < |srs|
    ensures |a| == 8 * i && Codec.SegsBytes(srs) == a + Codec.SegBytes(srs[i]) + b
  {
    if i == 0 {
      a, b := [], Codec.SegsBytes(srs[1..]);
    } else {
      a, b := SegAt(srs[1..], i - 1);
      a := Codec.SegBytes(srs[0]) + a;
    }
  }

  lemma NumberIs(front: seq<uint8>, v: uint32, rest: seq<uint8>)
    ensures Number(front + Codec.IntBytes(v, 4) + rest, |front|) == v
  {
    Codec.NetworkOrder(v);
    var d := front + Codec.IntBytes(v, 4) + rest;
    assert d[|front|..|front| + 4] == Codec.IntBytes(v, 4);
    assert forall k :: 0 <= k < 4 ==> d[|front| + k] == Codec.IntBytes(v, 4)[k];
  }

  lemma FourBits(d: nat, cc: nat, status: nat)
    requires d < 16 && cc < 16 && status < 4
    ensures Codec.Placed(d, 4, 4) == 16 * d && Codec.Placed(cc, 4, 4) == 16 * cc && Codec.Placed(status, 0, 2) == status
    ensures Codec.Placed(0, 0, 4) == 0 && Codec.Placed(1, 0, 4) == 1
  {
  }

  lemma FinCode(cc: nat, dc: nat, fs: nat, tlvs: seq<Codec.Tlv>)
    requires cc < 16 && dc < 2 && fs < 4
    ensures Codec.FinOctet(Codec.FinPdu(cc, dc, fs, tlvs)) == 16 * cc + 4 * dc + fs
  {
  }
}
