/**
 PDUs to octets and back (sections 5.1 to 5.4 of CCSDS 727.0-B-5): a codec state over
 a bounded buffer whose failure is sticky, and round trips with their exact range.
 Octets are zeroed before their fields are set and the fields do not overlap, so an
 octet is the sum of its shifted fields.
 */
module Codec {
  import opened Crc

  const TLV_ENTITY_ID := 6
  const MAX_TLV := 4
  const MAX_SEGMENTS := 58
  const EID_OCTETS := 4           // size of an entity ID and of a sequence number

  // ---------- the state ----------

  datatype CodecState = CodecState(valid: bool, next: nat, buf: seq<uint8>)

  // CF_CFDP_CodecCheckSize: the position moves even after a failure, if there is room.
  function Advance(s: CodecState, n: nat): CodecState {
    if |s.buf| < s.next + n then s.(valid := false) else s.(next := s.next + n)
  }

  // A chunk reserved and filled.
  function Write(s: CodecState, d: seq<uint8>): (t: CodecState)
    ensures |t.buf| == |s.buf|
  {
    var t := Advance(s, |d|);
    if t.valid then t.(buf := s.buf[..s.next] + d + s.buf[s.next + |d|..]) else t
  }

  // A chunk taken off; without one, nothing is read.
  function Read(s: CodecState, n: nat): (r: (CodecState, seq<uint8>))
    ensures r.0.valid ==> |r.1| == n
  {
    var t := Advance(s, n);
    (t, if t.valid then s.buf[s.next..s.next + n] else [])
  }

  // Failure is sticky: nothing is written to or read from a failed state.
  lemma FailureSticks(s: CodecState, d: seq<uint8>)
    requires !s.valid
    ensures !Write(s, d).valid && Write(s, d).buf == s.buf
    ensures !Read(s, |d|).0.valid && Read(s, |d|).1 == []
  {
  }

  // From `s` on, the encoder emits `d`: it succeeds if and only if `d` fits, and
  // then has written just that.
  ghost predicate Emits(s: CodecState, t: CodecState, d: seq<uint8>) {
    && |t.buf| == |s.buf|
    && (t.valid <==> s.valid && s.next + |d| <= |s.buf|)
    && (t.valid ==> t == Write(s, d))
  }

  lemma EmitsWrite(s: CodecState, d: seq<uint8>)
    ensures Emits(s, Write(s, d), d)
  {
  }

  lemma WriteFits(s: CodecState, d: seq<uint8>)
    ensures Write(s, d).valid ==> Write(s, d).next <= |Write(s, d).buf|
  {
  }

  lemma EmitsThen(s: CodecState, a: seq<uint8>, t: CodecState, b: seq<uint8>, u: CodecState)
    requires Emits(s, t, a) && (if t.valid then Emits(t, u, b) else !u.valid && |u.buf| == |t.buf|)
    ensures Emits(s, u, a + b)
  {
    if u.valid {
      var w := Write(s, a + b);
      assert u.buf == t.buf[..t.next] + b + t.buf[t.next + |b|..];
      assert t.buf[..t.next] == s.buf[..s.next] + a;
      assert t.buf[t.next + |b|..] == s.buf[s.next + |a + b|..];
      assert u.buf == w.buf;
    }
  }

  // The octets `d` lie ahead.
  ghost predicate Ahead(s: CodecState, d: seq<uint8>) {
    s.valid && s.next + |d| <= |s.buf| && s.buf[s.next..s.next + |d|] == d
  }

  function Skip(s: CodecState, n: nat): CodecState { s.(next := s.next + n) }

  lemma AheadSplit(s: CodecState, a: seq<uint8>, b: seq<uint8>)
    requires Ahead(s, a + b)
    ensures Read(s, |a|) == (Skip(s, |a|), a) && Ahead(s, a) && Ahead(Skip(s, |a|), b)
    ensures Skip(Skip(s, |a|), |b|) == Skip(s, |a + b|)
  {
    assert s.buf[s.next..s.next + |a|] == (a + b)[..|a|];
    assert s.buf[s.next + |a|..s.next + |a + b|] == (a + b)[|a|..];
  }

  // What was emitted lies ahead of a decoder over the octets written so far.
  lemma EmittedAhead(s: CodecState, t: CodecState, d: seq<uint8>)
    requires Emits(s, t, d) && t.valid
    ensures Ahead(CodecState(true, s.next, t.buf[..t.next]), d)
    ensures Skip(CodecState(true, s.next, t.buf[..t.next]), |d|).next == t.next == |t.buf[..t.next]|
  {
  }

  // ---------- integers ----------

  function Pow256(n: nat): (r: nat)
    ensures 0 < r
  {
    if n == 0 then 1 else 256 * Pow256(n - 1)
  }

  // CF_EncodeIntegerInSize: the low octets, most significant first.
  function IntBytes(v: nat, n: nat): (r: seq<uint8>)
    ensures |r| == n
  {
    if n == 0 then [] else IntBytes(v / 256, n - 1) + [v % 256]
  }

  // CF_DecodeIntegerInSize: a 64-bit accumulator.
  function IntOf(d: seq<uint8>): nat {
    if d == [] then 0 else (IntOf(d[..|d| - 1]) * 256) % 0x1_0000_0000_0000_0000 + d[|d| - 1]
  }

  // An integer survives exactly if it is below 256 to the number of octets.
  lemma {:induction false} IntRoundTrip(v: nat, n: nat)
    requires v < 0x1_0000_0000_0000_0000
    ensures IntOf(IntBytes(v, n)) == v <==> v < Pow256(n)
    ensures IntOf(IntBytes(v, n)) <= v
    decreases n
  {
    if n != 0 {
      var d := IntBytes(v, n);
      assert d[..|d| - 1] == IntBytes(v / 256, n - 1);
      IntRoundTrip(v / 256, n - 1);
      assert v == 256 * (v / 256) + v % 256;
    }
  }

  // The least number of octets an integer fits into, at most eight.
  method GetValueEncodedSize(value: nat) returns (minSize: nat)
    requires value < Pow256(8)
    ensures 1 <= minSize <= 8 && value < Pow256(minSize)
    ensures minSize == 1 || Pow256(minSize - 1) <= value
  {
    minSize := 1;
    var limit := 0x100;
    assert Pow256(1) == 256 * Pow256(0);
    while minSize < 8 && limit <= value
      invariant 1 <= minSize <= 8
      invariant minSize < 8 ==> limit == Pow256(minSize)
      invariant minSize == 1 || Pow256(minSize - 1) <= value
    {
      limit := (limit * 256) % 0x1_0000_0000_0000_0000;
      minSize := minSize + 1;
      PowSmall(minSize);
    }
  }

  lemma PowSmall(n: nat)
    requires 2 <= n <= 8
    ensures Pow256(n) == Pow256(n - 1) * 256
    ensures n < 8 ==> Pow256(n) < 0x1_0000_0000_0000_0000
  {
    assert Pow256(1) == 256 && Pow256(2) == 0x1_0000 && Pow256(3) == 0x100_0000 && Pow256(4) == 0x1_0000_0000;
    assert Pow256(5) == 0x100_0000_0000 && Pow256(6) == 0x1_0000_0000_0000 && Pow256(7) == 0x100_0000_0000_0000;
  }

  // ---------- fields of an octet ----------

  function ShiftLeft(v: nat, k: nat): nat {
    match k
    case 0 => v
    case 2 => 4 * v
    case 3 => 8 * v
    case 4 => 16 * v
    case 5 => 32 * v
    case _ => 128 * v
  }

  function ShiftRight(v: nat, k: nat): nat {
    match k
    case 0 => v
    case 1 => v / 2
    case 2 => v / 4
    case 3 => v / 8
    case 4 => v / 16
    case 5 => v / 32
    case _ => v / 128
  }

  function LowBits(v: nat, bits: nat): nat {
    match bits
    case 1 => v % 2
    case 2 => v % 4
    case 3 => v % 8
    case _ => v % 16
  }

  function Field(octet: uint8, shift: nat, bits: nat): nat { LowBits(ShiftRight(octet, shift), bits) }

  function Placed(value: nat, shift: nat, bits: nat): nat { ShiftLeft(LowBits(value, bits), shift) }

  lemma Octet3(x: nat, y: nat, z: nat)
    requires x < 16 && y < 2 && z < 4
    ensures var b := 16 * x + 4 * y + z; b < 256 && b / 16 % 16 == x && b / 4 % 2 == y && b % 4 == z
  {
  }

  lemma Octet4(a: nat, b: nat, c: nat, d: nat)
    requires a < 8 && b < 2 && c < 2 && d < 2
    ensures var o := 32 * a + 16 * b + 8 * c + 4 * d;
            && o < 256 && o / 32 % 8 == a && o / 16 % 2 == b && o / 8 % 2 == c && o / 4 % 2 == d
            && o / 2 % 2 == 0 && o % 2 == 0
  {
    var o := 32 * a + 16 * b + 8 * c + 4 * d;
    assert o / 2 == 16 * a + 8 * b + 4 * c + 2 * d && o / 4 == 8 * a + 4 * b + 2 * c + d;
    assert o / 8 == 4 * a + 2 * b + c && o / 16 == 2 * a + b && o / 32 == a;
  }

  lemma OctetLengths(a: nat, b: nat, c: nat, d: nat)
    requires a < 2 && b < 8 && c < 2 && d < 8
    ensures var o := 128 * a + 16 * b + 8 * c + d;
            o < 256 && o / 128 % 2 == a && o / 16 % 8 == b && o / 8 % 2 == c && o % 8 == d
  {
  }

  // ---------- LV and TLV ----------

  function LvBytes(d: seq<uint8>): seq<uint8>
    requires |d| < 256
  {
    [|d|] + d
  }

  function EncodeLv(s: CodecState, d: seq<uint8>): CodecState
    requires |d| < 256
  {
    var a := Write(s, [|d|]);
    if a.valid && d != [] then Write(a, d) else a
  }

  function DecodeLv(s: CodecState): (CodecState, seq<uint8>) {
    var (a, l) := Read(s, 1);
    if a.valid then Read(a, l[0]) else (a, [])
  }

  lemma LvEmits(s: CodecState, d: seq<uint8>)
    requires |d| < 256
    ensures Emits(s, EncodeLv(s, d), LvBytes(d))
  {
    var a := Write(s, [|d|]);
    EmitsWrite(s, [|d|]);
    EmitsWrite(a, d);
    if d == [] {
      assert LvBytes(d) == [|d|];
    } else {
      EmitsThen(s, [|d|], a, d, EncodeLv(s, d));
    }
  }

  lemma LvDecodes(s: CodecState, d: seq<uint8>)
    requires |d| < 256 && Ahead(s, LvBytes(d))
    ensures DecodeLv(s) == (Skip(s, |LvBytes(d)|), d)
  {
    AheadSplit(s, [|d|], d);
  }

  // Only entity IDs have a value; anything else is carried as it is.
  datatype Tlv = EntityId(length: uint8, eid: uint32) | OtherTlv(kind: uint8, data: seq<uint8>)

  predicate WellTyped(t: Tlv) { t.OtherTlv? ==> t.kind != TLV_ENTITY_ID && |t.data| < 256 }

  function TlvHead(t: Tlv): seq<uint8>
    requires WellTyped(t)
  {
    match t
    case EntityId(length, _) => [TLV_ENTITY_ID, length]
    case OtherTlv(kind, data) => [kind, |data|]
  }

  function TlvBody(t: Tlv): seq<uint8> {
    match t
    case EntityId(length, eid) => IntBytes(eid, length)
    case OtherTlv(_, data) => data
  }

  function TlvBytes(t: Tlv): (r: seq<uint8>)
    requires WellTyped(t)
    ensures 2 <= |r|
  {
    TlvHead(t) + TlvBody(t)
  }

  function EncodeTlv(s: CodecState, t: Tlv): CodecState
    requires WellTyped(t)
  {
    var a := Write(s, TlvHead(t));
    if a.valid && (t.EntityId? || t.data != []) then Write(a, TlvBody(t)) else a
  }

  function DecodeTlv(s: CodecState): (CodecState, Tlv) {
    var (a, h) := Read(s, 2);
    if !a.valid then (a, OtherTlv(0, []))
    else
      var (b, d) := Read(a, h[1]);
      (b, if h[0] == TLV_ENTITY_ID then EntityId(h[1], IntOf(d) % M) else OtherTlv(h[0], d))
  }

  // An entity ID may be cut by the length it is given.
  function WireTlv(t: Tlv): Tlv {
    if t.EntityId? then EntityId(t.length, IntOf(IntBytes(t.eid, t.length)) % M) else t
  }

  predicate TlvInRange(t: Tlv) { t.EntityId? ==> t.eid < Pow256(t.length) }

  lemma TlvEmits(s: CodecState, t: Tlv)
    requires WellTyped(t)
    ensures Emits(s, EncodeTlv(s, t), TlvBytes(t))
  {
    var a := Write(s, TlvHead(t));
    EmitsWrite(s, TlvHead(t));
    EmitsWrite(a, TlvBody(t));
    if t.OtherTlv? && t.data == [] {
      assert TlvBytes(t) == TlvHead(t);
    } else {
      EmitsThen(s, TlvHead(t), a, TlvBody(t), EncodeTlv(s, t));
    }
  }

  lemma TlvDecodes(s: CodecState, t: Tlv)
    requires WellTyped(t) && Ahead(s, TlvBytes(t))
    ensures DecodeTlv(s) == (Skip(s, |TlvBytes(t)|), WireTlv(t))
  {
    AheadSplit(s, TlvHead(t), TlvBody(t));
    assert TlvBody(t) + [] == TlvBody(t);
    AheadSplit(Skip(s, 2), TlvBody(t), []);
  }

  lemma TlvSurvives(t: Tlv)
    ensures WireTlv(t) == t <==> TlvInRange(t)
  {
    if t.EntityId? {
      IntRoundTrip(t.eid, t.length);
    }
  }

  // ---------- lists of TLVs ----------

  predicate AllTyped(ts: seq<Tlv>) { forall i :: 0 <= i < |ts| ==> WellTyped(ts[i]) }

  function TlvsBytes(ts: seq<Tlv>): seq<uint8>
    requires AllTyped(ts)
  {
    if ts == [] then [] else TlvBytes(ts[0]) + TlvsBytes(ts[1..])
  }

  function EncodeTlvs(s: CodecState, ts: seq<Tlv>): CodecState
    requires AllTyped(ts)
    decreases |ts|
  {
    if ts == [] || !s.valid then s else EncodeTlvs(EncodeTlv(s, ts[0]), ts[1..])
  }

  // The list takes what is left of the PDU, up to the limit.
  function DecodeTlvs(s: CodecState, limit: nat): (CodecState, seq<Tlv>)
    decreases limit
  {
    if limit == 0 || s.next == |s.buf| then (s, [])
    else
      var (a, t) := DecodeTlv(s);
      if !a.valid then (a, [])
      else
        var (b, rest) := DecodeTlvs(a, limit - 1);
        (b, [t] + rest)
  }

  function WireTlvs(ts: seq<Tlv>): (r: seq<Tlv>)
    ensures |r| == |ts| && forall i :: 0 <= i < |r| ==> r[i] == WireTlv(ts[i])
  {
    if ts == [] then [] else [WireTlv(ts[0])] + WireTlvs(ts[1..])
  }

  lemma {:induction false} TlvsEmit(s: CodecState, ts: seq<Tlv>)
    requires AllTyped(ts) && s.valid && s.next <= |s.buf|
    ensures Emits(s, EncodeTlvs(s, ts), TlvsBytes(ts))
    decreases |ts|
  {
    if ts != [] {
      var a := EncodeTlv(s, ts[0]);
      TlvEmits(s, ts[0]);
      assert EncodeTlvs(s, ts) == EncodeTlvs(a, ts[1..]);
      if a.valid {
        hide EncodeTlv;
        TlvsEmit(a, ts[1..]);
      } else {
        assert EncodeTlvs(a, ts[1..]) == a;
      }
      EmitsThen(s, TlvBytes(ts[0]), a, TlvsBytes(ts[1..]), EncodeTlvs(s, ts));
    }
  }

  lemma {:induction false} TlvsDecode(s: CodecState, ts: seq<Tlv>, limit: nat)
    requires AllTyped(ts) && |ts| <= limit
    requires Ahead(s, TlvsBytes(ts)) && s.next + |TlvsBytes(ts)| == |s.buf|
    ensures DecodeTlvs(s, limit) == (Skip(s, |TlvsBytes(ts)|), WireTlvs(ts))
    decreases |ts|
  {
    hide DecodeTlv, TlvBytes, WireTlv, WellTyped, Ahead, Read;
    if ts != [] {
      var rest := Skip(s, |TlvBytes(ts[0])|);
      AheadSplit(s, TlvBytes(ts[0]), TlvsBytes(ts[1..]));
      TlvDecodes(s, ts[0]);
      AheadValid(s, TlvBytes(ts[0]));
      TlvsDecode(rest, ts[1..], limit - 1);
    }
  }

  lemma AheadValid(s: CodecState, d: seq<uint8>)
    requires Ahead(s, d)
    ensures s.valid && s.next + |d| <= |s.buf|
  {
  }

  lemma TlvsSurvive(ts: seq<Tlv>)
    ensures WireTlvs(ts) == ts <==> forall i :: 0 <= i < |ts| ==> TlvInRange(ts[i])
  {
    forall i | 0 <= i < |ts| ensures WireTlv(ts[i]) == ts[i] <==> TlvInRange(ts[i]) {
      TlvSurvives(ts[i]);
    }
  }

  // ---------- lists of segment requests ----------

  function Wire32(v: nat): nat { IntOf(IntBytes(v, 4)) }

  lemma Survives32(v: uint32)
    ensures Wire32(v) == v
  {
    IntRoundTrip(v, 4);
    assert Pow256(4) == 256 * Pow256(3) && Pow256(3) == 256 * Pow256(2) && Pow256(2) == 256 * Pow256(1);
    assert Pow256(1) == 256 * Pow256(0);
  }

  // The most significant octet comes first.
  lemma NetworkOrder(v: uint32)
    ensures var d := IntBytes(v, 4);
            v == 0x100_0000 * (d[0] as nat) + 0x1_0000 * (d[1] as nat) + 0x100 * (d[2] as nat) + d[3] as nat
  {
    var a, b, c := v / 256, v / 256 / 256, v / 256 / 256 / 256;
    assert c < 256;
    assert IntBytes(v, 4) == IntBytes(a, 3) + [v % 256] && IntBytes(a, 3) == IntBytes(b, 2) + [a % 256];
    assert IntBytes(b, 2) == IntBytes(c, 1) + [b % 256] && IntBytes(c, 1) == IntBytes(c / 256, 0) + [c % 256];
    assert IntBytes(v, 4) == [c % 256, b % 256, a % 256, v % 256];
  }

  datatype SegmentRequest = SegmentRequest(start: uint32, end: uint32)

  function SegBytes(sr: SegmentRequest): (r: seq<uint8>)
    ensures |r| == 8
  {
    IntBytes(sr.start, 4) + IntBytes(sr.end, 4)
  }

  function SegsBytes(srs: seq<SegmentRequest>): (r: seq<uint8>)
    ensures |r| == 8 * |srs|
  {
    if srs == [] then [] else SegBytes(srs[0]) + SegsBytes(srs[1..])
  }

  function EncodeSegs(s: CodecState, srs: seq<SegmentRequest>): CodecState
    decreases |srs|
  {
    if srs == [] || !s.valid then s else EncodeSegs(Write(s, SegBytes(srs[0])), srs[1..])
  }

  function DecodeSeg(s: CodecState): (CodecState, SegmentRequest) {
    var (a, d) := Read(s, 8);
    (a, if a.valid then SegmentRequest(IntOf(d[..4]) % M, IntOf(d[4..]) % M) else SegmentRequest(0, 0))
  }

  function DecodeSegs(s: CodecState, limit: nat): (CodecState, seq<SegmentRequest>)
    decreases limit
  {
    if limit == 0 || s.next == |s.buf| then (s, [])
    else
      var (a, sr) := DecodeSeg(s);
      if !a.valid then (a, [])
      else
        var (b, rest) := DecodeSegs(a, limit - 1);
        (b, [sr] + rest)
  }

  lemma {:induction false} SegsEmit(s: CodecState, srs: seq<SegmentRequest>)
    requires s.valid && s.next <= |s.buf|
    ensures Emits(s, EncodeSegs(s, srs), SegsBytes(srs))
    decreases |srs|
  {
    if srs != [] {
      var a := Write(s, SegBytes(srs[0]));
      EmitsWrite(s, SegBytes(srs[0]));
      assert EncodeSegs(s, srs) == EncodeSegs(a, srs[1..]);
      if a.valid {
        hide SegBytes;
        SegsEmit(a, srs[1..]);
      } else {
        assert EncodeSegs(a, srs[1..]) == a;
      }
      EmitsThen(s, SegBytes(srs[0]), a, SegsBytes(srs[1..]), EncodeSegs(s, srs));
    }
  }

  lemma SegDecodes(s: CodecState, sr: SegmentRequest)
    requires Ahead(s, SegBytes(sr))
    ensures DecodeSeg(s) == (Skip(s, 8), sr)
  {
    var d := SegBytes(sr);
    assert d + [] == d;
    AheadSplit(s, d, []);
    assert d[..4] == IntBytes(sr.start, 4) && d[4..] == IntBytes(sr.end, 4);
    Survives32(sr.start);
    Survives32(sr.end);
  }

  lemma {:induction false} SegsDecode(s: CodecState, srs: seq<SegmentRequest>, limit: nat)
    requires |srs| <= limit && Ahead(s, SegsBytes(srs)) && s.next + |SegsBytes(srs)| == |s.buf|
    ensures DecodeSegs(s, limit) == (Skip(s, |SegsBytes(srs)|), srs)
    decreases |srs|
  {
    if srs != [] {
      hide DecodeSeg, SegBytes;
      AheadSplit(s, SegBytes(srs[0]), SegsBytes(srs[1..]));
      SegDecodes(s, srs[0]);
      SegsDecode(Skip(s, 8), srs[1..], limit - 1);
      assert srs == [srs[0]] + srs[1..];
    }
  }

  // ---------- the directive PDUs ----------

  // A PDU is a fixed part and then a list or two variable parts; an encoder state
  // that could not take the fixed part takes nothing.

  datatype EofPdu = EofPdu(cc: nat, crc: uint32, size: uint32, tlvs: seq<Tlv>)

  function EofFixed(p: EofPdu): (r: seq<uint8>)
    ensures |r| == 9
  {
    [Placed(p.cc, 4, 4)] + IntBytes(p.crc, 4) + IntBytes(p.size, 4)
  }

  function EncodeEof(s: CodecState, p: EofPdu): CodecState
    requires AllTyped(p.tlvs)
  {
    var a := Write(s, EofFixed(p));
    if a.valid then EncodeTlvs(a, p.tlvs) else a
  }

  function DecodeEof(s: CodecState): (CodecState, EofPdu) {
    var (a, h) := Read(s, 9);
    if !a.valid then (a, EofPdu(0, 0, 0, []))
    else
      var (b, ts) := DecodeTlvs(a, MAX_TLV);
      (b, EofPdu(Field(h[0], 4, 4), IntOf(h[1..5]) % M, IntOf(h[5..9]) % M, ts))
  }

  datatype FinPdu = FinPdu(cc: nat, dc: nat, fs: nat, tlvs: seq<Tlv>)

  function FinOctet(p: FinPdu): uint8 {
    Placed(p.cc, 4, 4) + Placed(p.dc, 2, 1) + Placed(p.fs, 0, 2)
  }

  function EncodeFin(s: CodecState, p: FinPdu): CodecState
    requires AllTyped(p.tlvs)
  {
    var a := Write(s, [FinOctet(p)]);
    if a.valid then EncodeTlvs(a, p.tlvs) else a
  }

  function DecodeFin(s: CodecState): (CodecState, FinPdu) {
    var (a, h) := Read(s, 1);
    if !a.valid then (a, FinPdu(0, 0, 0, []))
    else
      var (b, ts) := DecodeTlvs(a, MAX_TLV);
      (b, FinPdu(Field(h[0], 4, 4), Field(h[0], 2, 1), Field(h[0], 0, 2), ts))
  }

  datatype AckPdu = AckPdu(directive: nat, subtype: nat, cc: nat, status: nat)

  function AckOctets(p: AckPdu): seq<uint8> {
    [Placed(p.directive, 4, 4) + Placed(p.subtype, 0, 4), Placed(p.cc, 4, 4) + Placed(p.status, 0, 2)]
  }

  function EncodeAck(s: CodecState, p: AckPdu): CodecState { Write(s, AckOctets(p)) }

  function DecodeAck(s: CodecState): (CodecState, AckPdu) {
    var (a, h) := Read(s, 2);
    (a, if a.valid then AckPdu(Field(h[0], 4, 4), Field(h[0], 0, 4), Field(h[1], 4, 4), Field(h[1], 0, 2))
        else AckPdu(0, 0, 0, 0))
  }

  datatype NakPdu = NakPdu(scopeStart: uint32, scopeEnd: uint32, segs: seq<SegmentRequest>)

  function NakFixed(p: NakPdu): (r: seq<uint8>)
    ensures |r| == 8
  {
    IntBytes(p.scopeStart, 4) + IntBytes(p.scopeEnd, 4)
  }

  function EncodeNak(s: CodecState, p: NakPdu): CodecState {
    var a := Write(s, NakFixed(p));
    if a.valid then EncodeSegs(a, p.segs) else a
  }

  function DecodeNak(s: CodecState): (CodecState, NakPdu) {
    var (a, h) := Read(s, 8);
    if !a.valid then (a, NakPdu(0, 0, []))
    else
      var (b, srs) := DecodeSegs(a, MAX_SEGMENTS);
      (b, NakPdu(IntOf(h[..4]) % M, IntOf(h[4..]) % M, srs))
  }

  datatype MdPdu = MdPdu(closeReq: nat, checksumType: nat, size: uint32, src: seq<uint8>, dst: seq<uint8>)

  function MdFixed(p: MdPdu): (r: seq<uint8>)
    ensures |r| == 5
  {
    [Placed(p.closeReq, 7, 1) + Placed(p.checksumType, 0, 4)] + IntBytes(p.size, 4)
  }

  function EncodeMd(s: CodecState, p: MdPdu): CodecState
    requires |p.src| < 256 && |p.dst| < 256
  {
    var a := Write(s, MdFixed(p));
    if a.valid then EncodeLv(EncodeLv(a, p.src), p.dst) else a
  }

  function DecodeMd(s: CodecState): (CodecState, MdPdu) {
    var (a, h) := Read(s, 5);
    if !a.valid then (a, MdPdu(0, 0, 0, [], []))
    else
      var (b, src) := DecodeLv(a);
      var (c, dst) := DecodeLv(b);
      (c, MdPdu(Field(h[0], 7, 1), Field(h[0], 0, 4), IntOf(h[1..5]) % M, src, dst))
  }

  // ---------- round trips ----------

  // A decoder over the octets an encoder has emitted since `s`.
  function Over(s: CodecState, t: CodecState): CodecState
    requires t.next <= |t.buf|
  {
    CodecState(true, s.next, t.buf[..t.next])
  }

  ghost predicate Ready(s: CodecState) { s.valid && s.next <= |s.buf| }

  lemma EofRoundTrip(s: CodecState, p: EofPdu)
    requires Ready(s) && AllTyped(p.tlvs) && |p.tlvs| <= MAX_TLV
    ensures var t := EncodeEof(s, p);
            && (t.valid <==> s.next + 9 + |TlvsBytes(p.tlvs)| <= |s.buf|)
            && (t.valid ==>
                  && s.next <= t.next <= |t.buf|
                  && DecodeEof(Over(s, t)) == (Over(t, t), EofPdu(p.cc % 16, p.crc, p.size, WireTlvs(p.tlvs)))
                  && (DecodeEof(Over(s, t)).1 == p <==>
                        p.cc < 16 && forall i :: 0 <= i < |p.tlvs| ==> TlvInRange(p.tlvs[i])))
  {
    hide Write, EncodeTlvs, DecodeTlvs, IntBytes, IntOf, TlvsBytes, Emits, Ahead;
    var a, t := Write(s, EofFixed(p)), EncodeEof(s, p);
    EmitsList(s, EofFixed(p), a, p.tlvs, t);
    if t.valid {
      var r := Over(s, t);
      DecodesList(r, EofFixed(p), p.tlvs);
      EofFields(p);
      TlvsSurvive(p.tlvs);
    }
  }

  lemma EofFields(p: EofPdu)
    ensures var h := EofFixed(p);
            && Field(h[0], 4, 4) == p.cc % 16 && IntOf(h[1..5]) == p.crc && IntOf(h[5..9]) == p.size
  {
    hide IntBytes, IntOf;
    var h := EofFixed(p);
    assert h[1..5] == IntBytes(p.crc, 4) && h[5..9] == IntBytes(p.size, 4);
    Survives32(p.crc);
    Survives32(p.size);
  }

  // A fixed part with a list of TLVs behind it, encoded and decoded.
  lemma EmitsList(s: CodecState, fixed: seq<uint8>, a: CodecState, ts: seq<Tlv>, t: CodecState)
    requires Ready(s) && AllTyped(ts) && a == Write(s, fixed)
    requires t == if a.valid then EncodeTlvs(a, ts) else a
    ensures Emits(s, t, fixed + TlvsBytes(ts))
    ensures t.valid <==> s.next + |fixed| + |TlvsBytes(ts)| <= |s.buf|
    ensures t.valid ==> t.next <= |t.buf| && Ahead(Over(s, t), fixed + TlvsBytes(ts))
    ensures t.valid ==> t.next == s.next + |fixed| + |TlvsBytes(ts)|
  {
    EmitsWrite(s, fixed);
    if a.valid {
      TlvsEmit(a, ts);
    }
    EmitsThen(s, fixed, a, TlvsBytes(ts), t);
    if t.valid {
      EmittedAhead(s, t, fixed + TlvsBytes(ts));
    }
  }

  lemma DecodesList(r: CodecState, fixed: seq<uint8>, ts: seq<Tlv>)
    requires AllTyped(ts) && |ts| <= MAX_TLV && Ahead(r, fixed + TlvsBytes(ts))
    requires r.next + |fixed| + |TlvsBytes(ts)| == |r.buf|
    ensures Read(r, |fixed|) == (Skip(r, |fixed|), fixed)
    ensures DecodeTlvs(Skip(r, |fixed|), MAX_TLV) == (CodecState(true, |r.buf|, r.buf), WireTlvs(ts))
  {
    hide DecodeTlvs, TlvsBytes, Read;
    AheadSplit(r, fixed, TlvsBytes(ts));
    TlvsDecode(Skip(r, |fixed|), ts, MAX_TLV);
  }

  // A FIN survives exactly if its fields fit their four, one and two bits; the
  // delivery code 2, which the receiver starts with, comes out as 0, complete.
  lemma FinRoundTrip(s: CodecState, p: FinPdu)
    requires Ready(s) && AllTyped(p.tlvs) && |p.tlvs| <= MAX_TLV
    ensures var t := EncodeFin(s, p);
            && (t.valid <==> s.next + 1 + |TlvsBytes(p.tlvs)| <= |s.buf|)
            && (t.valid ==>
                  && s.next <= t.next <= |t.buf|
                  && DecodeFin(Over(s, t)) == (Over(t, t), FinPdu(p.cc % 16, p.dc % 2, p.fs % 4, WireTlvs(p.tlvs)))
                  && (DecodeFin(Over(s, t)).1 == p <==>
                        p.cc < 16 && p.dc < 2 && p.fs < 4 && forall i :: 0 <= i < |p.tlvs| ==> TlvInRange(p.tlvs[i])))
  {
    hide Write, EncodeTlvs, DecodeTlvs, TlvsBytes, Emits, Ahead, FinOctet, Field;
    var fixed := [FinOctet(p)];
    var a, t := Write(s, fixed), EncodeFin(s, p);
    EmitsList(s, fixed, a, p.tlvs, t);
    if t.valid {
      DecodesList(Over(s, t), fixed, p.tlvs);
      FinFields(p);
      TlvsSurvive(p.tlvs);
    }
  }

  lemma FinFields(p: FinPdu)
    ensures Field(FinOctet(p), 4, 4) == p.cc % 16 && Field(FinOctet(p), 2, 1) == p.dc % 2
         && Field(FinOctet(p), 0, 2) == p.fs % 4
  {
    Octet3(p.cc % 16, p.dc % 2, p.fs % 4);
  }

  lemma AckRoundTrip(s: CodecState, p: AckPdu)
    requires Ready(s)
    ensures var t := EncodeAck(s, p);
            && (t.valid <==> s.next + 2 <= |s.buf|)
            && (t.valid ==>
                  && s.next <= t.next <= |t.buf|
                  && DecodeAck(Over(s, t))
                       == (Over(t, t), AckPdu(p.directive % 16, p.subtype % 16, p.cc % 16, p.status % 4))
                  && (DecodeAck(Over(s, t)).1 == p <==>
                        p.directive < 16 && p.subtype < 16 && p.cc < 16 && p.status < 4))
  {
    hide Write, Field, AckOctets;
    var d, t := AckOctets(p), EncodeAck(s, p);
    AckFields(p);
    EmitsWrite(s, d);
    if t.valid {
      EmittedAhead(s, t, d);
      assert d + [] == d;
      AheadSplit(Over(s, t), d, []);
    }
  }

  lemma AckFields(p: AckPdu)
    ensures var d := AckOctets(p);
            && |d| == 2
            && Field(d[0], 4, 4) == p.directive % 16 && Field(d[0], 0, 4) == p.subtype % 16
            && Field(d[1], 4, 4) == p.cc % 16 && Field(d[1], 0, 2) == p.status % 4
  {
  }

  // A NAK survives whatever it asks for, if its list is not longer than the
  // receiver of the PDU allows.
  lemma NakRoundTrip(s: CodecState, p: NakPdu)
    requires Ready(s) && |p.segs| <= MAX_SEGMENTS
    ensures var t := EncodeNak(s, p);
            && (t.valid <==> s.next + 8 + 8 * |p.segs| <= |s.buf|)
            && (t.valid ==> s.next <= t.next <= |t.buf| && DecodeNak(Over(s, t)) == (Over(t, t), p))
  {
    hide Write, EncodeSegs, DecodeSegs, IntBytes, IntOf, SegsBytes, Read;
    var fixed := NakFixed(p);
    var a, t := Write(s, fixed), EncodeNak(s, p);
    EmitsWrite(s, fixed);
    if a.valid {
      WriteFits(s, fixed);
      SegsEmit(a, p.segs);
    }
    EmitsThen(s, fixed, a, SegsBytes(p.segs), t);
    if t.valid {
      EmittedAhead(s, t, fixed + SegsBytes(p.segs));
      var r := Over(s, t);
      AheadSplit(r, fixed, SegsBytes(p.segs));
      SegsDecode(Skip(r, 8), p.segs, MAX_SEGMENTS);
      assert fixed[..4] == IntBytes(p.scopeStart, 4) && fixed[4..] == IntBytes(p.scopeEnd, 4);
      Survives32(p.scopeStart);
      Survives32(p.scopeEnd);
    }
  }

  lemma MdEmits(s: CodecState, p: MdPdu)
    requires Ready(s) && |p.src| < 256 && |p.dst| < 256
    ensures Emits(s, EncodeMd(s, p), MdFixed(p) + (LvBytes(p.src) + LvBytes(p.dst)))
  {
    hide Write, EncodeLv, MdFixed, LvBytes;
    var a := Write(s, MdFixed(p));
    EmitsWrite(s, MdFixed(p));
    if a.valid {
      var b := EncodeLv(a, p.src);
      LvEmits(a, p.src);
      LvEmits(b, p.dst);
      EmitsThen(a, LvBytes(p.src), b, LvBytes(p.dst), EncodeLv(b, p.dst));
    }
    EmitsThen(s, MdFixed(p), a, LvBytes(p.src) + LvBytes(p.dst), EncodeMd(s, p));
  }

  lemma MdRoundTrip(s: CodecState, p: MdPdu)
    requires Ready(s) && |p.src| < 256 && |p.dst| < 256
    ensures var t := EncodeMd(s, p);
            && (t.valid <==> s.next + 7 + |p.src| + |p.dst| <= |s.buf|)
            && (t.valid ==>
                  && s.next <= t.next <= |t.buf|
                  && DecodeMd(Over(s, t)) ==
                       (Over(t, t), MdPdu(p.closeReq % 2, p.checksumType % 16, p.size, p.src, p.dst))
                  && (DecodeMd(Over(s, t)).1 == p <==> p.closeReq < 2 && p.checksumType < 16))
  {
    hide Write, EncodeMd, DecodeLv, IntBytes, IntOf, Read, MdFixed, Field;
    var t := EncodeMd(s, p);
    var names := LvBytes(p.src) + LvBytes(p.dst);
    MdEmits(s, p);
    if t.valid {
      EmittedAhead(s, t, MdFixed(p) + names);
      var r := Over(s, t);
      AheadSplit(r, MdFixed(p), names);
      AheadSplit(Skip(r, 5), LvBytes(p.src), LvBytes(p.dst));
      LvDecodes(Skip(r, 5), p.src);
      LvDecodes(Skip(Skip(r, 5), |LvBytes(p.src)|), p.dst);
      MdFields(p);
    }
  }

  lemma MdFields(p: MdPdu)
    ensures var h := MdFixed(p);
            && Field(h[0], 7, 1) == p.closeReq % 2 && Field(h[0], 0, 4) == p.checksumType % 16
            && IntOf(h[1..5]) == p.size
  {
    hide IntBytes, IntOf;
    assert MdFixed(p)[1..5] == IntBytes(p.size, 4);
    Survives32(p.size);
  }

  // ---------- file data ----------

  // CF_CFDP_EncodeFileDataHeader without segment metadata, and the data chunk behind it.
  function EncodeFd(s: CodecState, offset: uint32, data: seq<uint8>): CodecState {
    Write(Write(s, IntBytes(offset, 4)), data)
  }

  // The data are all that is left of the PDU.
  function DecodeFd(s: CodecState): (CodecState, nat, seq<uint8>)
    requires s.next <= |s.buf|
  {
    var (a, h) := Read(s, 4);
    if !a.valid then (a, 0, [])
    else
      var (b, d) := Read(a, |a.buf| - a.next);
      (b, IntOf(h) % M, d)
  }

  lemma FdRoundTrip(s: CodecState, offset: uint32, data: seq<uint8>)
    requires Ready(s)
    ensures var t := EncodeFd(s, offset, data);
            && (t.valid <==> s.next + 4 + |data| <= |s.buf|)
            && (t.valid ==> s.next <= t.next <= |t.buf| && DecodeFd(Over(s, t)) == (Over(t, t), offset, data))
  {
    hide Write, IntBytes, IntOf, Read;
    var d := IntBytes(offset, 4);
    var t := EncodeFd(s, offset, data);
    Emits2(s, d, data);
    if t.valid {
      EmittedAhead(s, t, d + data);
      var r := Over(s, t);
      AheadSplit(r, d, data);
      assert data + [] == data;
      AheadSplit(Skip(r, 4), data, []);
      Survives32(offset);
    }
  }

  // ---------- the header ----------

  // The identifiers and their lengths in octets; `dataLen` is known last.
  datatype Header = Header(version: nat, pduType: nat, direction: nat, mode: nat, crcFlag: nat, largeFlag: nat,
                           segCtl: nat, eidLen: nat, segMeta: nat, seqLen: nat, dataLen: nat,
                           src: uint32, dst: uint32, seqNum: uint32)

  function FlagsOctet(h: Header): uint8 {
    Placed(h.version, 5, 3) + Placed(h.direction, 3, 1) + Placed(h.pduType, 4, 1) + Placed(h.mode, 2, 1)
  }

  // Lengths are stored less one, in three bits.
  function LengthsOctet(h: Header): uint8
    requires 0 < h.eidLen && 0 < h.seqLen
  {
    Placed(h.segCtl, 7, 1) + Placed(h.eidLen - 1, 4, 3) + Placed(h.segMeta, 3, 1) + Placed(h.seqLen - 1, 0, 3)
  }

  function Ids(h: Header): seq<uint8> {
    IntBytes(h.src, h.eidLen) + IntBytes(h.seqNum, h.seqLen) + IntBytes(h.dst, h.eidLen)
  }

  // CF_CFDP_EncodeHeaderWithoutSize: the two length octets keep what the buffer held.
  function EncodeHeader(s: CodecState, h: Header): CodecState
    requires 0 < h.eidLen && 0 < h.seqLen
  {
    if !Advance(s, 4).valid then Advance(s, 4)
    else
      var a := Write(s, [FlagsOctet(h), s.buf[s.next + 1], s.buf[s.next + 2], LengthsOctet(h)]);
      Write(Write(Write(a, IntBytes(h.src, h.eidLen)), IntBytes(h.seqNum, h.seqLen)), IntBytes(h.dst, h.eidLen))
  }

  // CF_CFDP_EncodeHeaderFinalSize, which also closes the state.
  function FinalSize(s: CodecState, len: nat): CodecState {
    var buf := if s.valid && 4 <= s.next <= |s.buf| then s.buf[1 := (len / 256) % 256][2 := len % 256] else s.buf;
    CodecState(false, s.next, buf)
  }

  // CF_CFDP_DecodeHeader: an error if a length exceeds what the program stores.
  function DecodeHeader(s: CodecState): (CodecState, bool, Header) {
    var (a, d) := Read(s, 4);
    var none := Header(0, 0, 0, 0, 0, 0, 0, 0, 0, 0, 0, 0, 0, 0);
    if !a.valid then (a, true, none)
    else
      var eidLen, seqLen := Field(d[3], 4, 3) + 1, Field(d[3], 0, 3) + 1;
      var h := Header(Field(d[0], 5, 3), Field(d[0], 4, 1), Field(d[0], 3, 1), Field(d[0], 2, 1), Field(d[0], 1, 1),
                      Field(d[0], 0, 1), Field(d[3], 7, 1), eidLen, Field(d[3], 3, 1), seqLen,
                      256 * (d[1] as nat) + d[2] as nat, 0, 0, 0);
      if EID_OCTETS < eidLen || EID_OCTETS < seqLen then (a, false, h)
      else
        var (b, src) := Read(a, eidLen);
        var (c, seqNum) := Read(b, seqLen);
        var (e, dst) := Read(c, eidLen);
        (e, true, h.(src := IntOf(src) % M, dst := IntOf(dst) % M, seqNum := IntOf(seqNum) % M))
  }

  // Fixing the size changes only the two octets for it, and leaves the position.
  lemma FinalSizeChangesOnly(s: CodecState, len: nat, i: nat)
    requires i < |s.buf|
    ensures |FinalSize(s, len).buf| == |s.buf| && FinalSize(s, len).next == s.next && !FinalSize(s, len).valid
    ensures FinalSize(s, len).buf[i] != s.buf[i] ==> i == 1 || i == 2
    ensures s.valid && 4 <= s.next <= |s.buf| ==>
              (FinalSize(s, len).buf[1] as int) * 256 + FinalSize(s, len).buf[2] as int == len % 0x1_0000
  {
    assert len == 0x1_0000 * (len / 0x1_0000) + len % 0x1_0000;
  }

  predicate HeaderInRange(h: Header) {
    && h.version < 8 && h.pduType < 2 && h.direction < 2 && h.mode < 2 && h.crcFlag == 0 && h.largeFlag == 0
    && h.segCtl < 2 && h.segMeta < 2 && h.dataLen < 0x1_0000
    && h.eidLen <= EID_OCTETS && h.seqLen <= EID_OCTETS
    && h.src < Pow256(h.eidLen) && h.dst < Pow256(h.eidLen) && h.seqNum < Pow256(h.seqLen)
  }

  lemma FlagsFields(h: Header)
    ensures var f := FlagsOctet(h);
            && Field(f, 5, 3) == h.version % 8 && Field(f, 4, 1) == h.pduType % 2 && Field(f, 3, 1) == h.direction % 2
            && Field(f, 2, 1) == h.mode % 2 && Field(f, 1, 1) == 0 && Field(f, 0, 1) == 0
  {
    Octet4(h.version % 8, h.pduType % 2, h.direction % 2, h.mode % 2);
    assert FlagsOctet(h) == 32 * (h.version % 8) + 16 * (h.pduType % 2) + 8 * (h.direction % 2) + 4 * (h.mode % 2);
    hide FlagsOctet;
  }

  lemma LengthsFields(h: Header)
    requires 0 < h.eidLen <= 8 && 0 < h.seqLen <= 8
    ensures var l := LengthsOctet(h);
            && Field(l, 7, 1) == h.segCtl % 2 && Field(l, 4, 3) == h.eidLen - 1
            && Field(l, 3, 1) == h.segMeta % 2 && Field(l, 0, 3) == h.seqLen - 1
  {
    var a, b, c, d := h.segCtl % 2, h.eidLen - 1, h.segMeta % 2, h.seqLen - 1;
    OctetLengths(a, b, c, d);
    assert b % 8 == b && d % 8 == d;
    assert LengthsOctet(h) == 128 * a + 16 * b + 8 * c + d;
    hide LengthsOctet;
  }

  function HeaderFixed(h: Header, hi: uint8, lo: uint8): seq<uint8>
    requires 0 < h.eidLen && 0 < h.seqLen
  {
    [FlagsOctet(h), hi, lo, LengthsOctet(h)]
  }

  lemma HeaderEmits(s: CodecState, h: Header)
    requires s.valid && s.next + 4 <= |s.buf| && 0 < h.eidLen && 0 < h.seqLen
    ensures Emits(s, EncodeHeader(s, h), HeaderFixed(h, s.buf[s.next + 1], s.buf[s.next + 2]) + Ids(h))
  {
    hide Write, Emits, FlagsOctet, LengthsOctet, IntBytes;
    var fixed := HeaderFixed(h, s.buf[s.next + 1], s.buf[s.next + 2]);
    var src, seqNum, dst := IntBytes(h.src, h.eidLen), IntBytes(h.seqNum, h.seqLen), IntBytes(h.dst, h.eidLen);
    var a := Write(s, fixed);
    var b := Write(a, src);
    var c := Write(b, seqNum);
    Emits2(s, fixed, src);
    Emits3(s, fixed, src, seqNum);
    EmitsWrite(c, dst);
    EmitsInvalid(s, c, fixed + src + seqNum, dst);
    assert fixed + src + seqNum + dst == fixed + (src + seqNum + dst);
  }

  lemma EmitsInvalid(s: CodecState, c: CodecState, a: seq<uint8>, d: seq<uint8>)
    requires Emits(s, c, a)
    ensures Emits(s, Write(c, d), a + d)
  {
    hide Write;
    EmitsWrite(c, d);
    if !c.valid {
      FailureSticks(c, d);
    }
    EmitsThen(s, a, c, d, Write(c, d));
  }

  lemma Emits2(s: CodecState, a: seq<uint8>, b: seq<uint8>)
    ensures Emits(s, Write(Write(s, a), b), a + b)
  {
    hide Write, Emits;
    EmitsWrite(s, a);
    EmitsInvalid(s, Write(s, a), a, b);
  }

  lemma Emits3(s: CodecState, a: seq<uint8>, b: seq<uint8>, c: seq<uint8>)
    ensures Emits(s, Write(Write(Write(s, a), b), c), a + b + c)
  {
    hide Write, Emits;
    Emits2(s, a, b);
    EmitsInvalid(s, Write(Write(s, a), b), a + b, c);
  }

  // Decoding a header that lies ahead, in front of anything.
  lemma HeaderDecodes(s: CodecState, h: Header, hi: uint8, lo: uint8, body: seq<uint8>)
    requires 0 < h.eidLen <= 8 && 0 < h.seqLen <= 8 && h.dataLen == 256 * hi + lo
    requires Ahead(s, HeaderFixed(h, hi, lo) + (Ids(h) + body))
    ensures var (t, ok, g) := DecodeHeader(s);
            && (ok ==> t == Skip(s, 4 + |Ids(h)|))
            && (ok && g == h <==> HeaderInRange(h))
  {
    hide FlagsOctet, LengthsOctet, IntBytes, IntOf, Field, Read, Ahead, Pow256;
    FlagsFields(h);
    LengthsFields(h);
    var src, seqNum, dst := IntBytes(h.src, h.eidLen), IntBytes(h.seqNum, h.seqLen), IntBytes(h.dst, h.eidLen);
    AheadSplit(s, HeaderFixed(h, hi, lo), Ids(h) + body);
    IdsDecode(Skip(s, 4), src, seqNum, dst, body);
    IntRoundTrip(h.src, h.eidLen);
    IntRoundTrip(h.seqNum, h.seqLen);
    IntRoundTrip(h.dst, h.eidLen);
  }

  lemma IdsDecode(s: CodecState, src: seq<uint8>, seqNum: seq<uint8>, dst: seq<uint8>, body: seq<uint8>)
    requires Ahead(s, src + seqNum + dst + body)
    ensures var (b, x) := Read(s, |src|);
            var (c, y) := Read(b, |seqNum|);
            var (e, z) := Read(c, |dst|);
            x == src && y == seqNum && z == dst && e == Skip(s, |src + seqNum + dst|)
  {
    hide Ahead, Read;
    assert src + seqNum + dst + body == src + (seqNum + (dst + body));
    AheadSplit(s, src, seqNum + (dst + body));
    AheadSplit(Skip(s, |src|), seqNum, dst + body);
    AheadSplit(Skip(Skip(s, |src|), |seqNum|), dst, body);
  }

  // A whole PDU: the header, a body behind it, and the size fixed at the end. The
  // header is read back as it was, and the body found where it begins, exactly if
  // every field of the header is in its range.
  lemma HeaderRoundTrip(s: CodecState, h: Header, body: seq<uint8>)
    requires s.valid && s.next == 0 && 0 < h.eidLen <= 8 && 0 < h.seqLen <= 8 && h.dataLen < 0x1_0000
    ensures var t := EncodeHeader(s, h);
            var u := Write(t, body);
            var f := FinalSize(u, h.dataLen);
            && (t.valid <==> 4 + 2 * h.eidLen + h.seqLen <= |s.buf|)
            && (u.valid ==>
                  && f.next <= |f.buf|
                  && var (d, ok, g) := DecodeHeader(CodecState(true, 0, f.buf[..f.next]));
                     && (ok && g == h <==> HeaderInRange(h))
                     && (ok ==> d == CodecState(true, t.next, f.buf[..f.next]) && d.next <= f.next
                                && f.buf[d.next..f.next] == body))
  {
    hide Write, EncodeHeader, DecodeHeader, FinalSize, FlagsOctet, LengthsOctet, IntBytes, HeaderInRange;
    var t := EncodeHeader(s, h);
    if 4 <= |s.buf| {
      HeaderEmits(s, h);
      var head := HeaderFixed(h, s.buf[1], s.buf[2]) + Ids(h);
      EmitsInvalid(s, t, head, body);
      if Write(t, body).valid {
        HeaderBack(s, h, t, Write(t, body), body);
      }
    } else {
      NoHeader(s, h, body);
    }
  }

  // What stands in the buffer then: the header with the length in it, and the body.
  lemma HeaderOctets(s: CodecState, h: Header, t: CodecState, u: CodecState, body: seq<uint8>)
    requires s.valid && s.next == 0 && 0 < h.eidLen <= 8 && 0 < h.seqLen <= 8 && h.dataLen < 0x1_0000
    requires 4 <= |s.buf| && u.valid
    requires var head := HeaderFixed(h, s.buf[1], s.buf[2]) + Ids(h);
             Emits(s, t, head) && Emits(s, u, head + body)
    ensures var f := FinalSize(u, h.dataLen);
            && f.next <= |f.buf|
            && f.buf[..f.next] == HeaderFixed(h, h.dataLen / 256, h.dataLen % 256) + (Ids(h) + body)
            && t.valid && t.next == 4 + |Ids(h)| <= f.next && f.buf[t.next..f.next] == body
  {
    hide Write, FlagsOctet, LengthsOctet, IntBytes, HeaderFixed, Ids, Emits, FinalSize;
    var fixed, rest := HeaderFixed(h, s.buf[1], s.buf[2]), Ids(h) + body;
    var hi: uint8, lo: uint8 := h.dataLen / 256, h.dataLen % 256;
    WhereItFits(s, t, u, fixed + Ids(h), body);
    Written(s, t, fixed + Ids(h));
    Written(s, u, fixed + Ids(h) + body);
    assert fixed + Ids(h) + body == fixed + rest;
    SizeFixed(u, h, s.buf[1], s.buf[2], rest);
    SizeKeeps(u, h.dataLen);
    var f := FinalSize(u, h.dataLen);
    var octets := f.buf[..f.next];
    assert octets == HeaderFixed(h, hi, lo) + rest;
    FourOctets(h, hi, lo);
    FourOctets(h, s.buf[1], s.buf[2]);
    assert octets == HeaderFixed(h, hi, lo) + Ids(h) + body;
    assert f.buf[|fixed + Ids(h)|..f.next] == octets[|fixed + Ids(h)|..] == body;
  }

  lemma HeaderBack(s: CodecState, h: Header, t: CodecState, u: CodecState, body: seq<uint8>)
    requires s.valid && s.next == 0 && 0 < h.eidLen <= 8 && 0 < h.seqLen <= 8 && h.dataLen < 0x1_0000
    requires 4 <= |s.buf| && u.valid
    requires var head := HeaderFixed(h, s.buf[1], s.buf[2]) + Ids(h);
             Emits(s, t, head) && Emits(s, u, head + body)
    ensures var f := FinalSize(u, h.dataLen);
            && f.next <= |f.buf|
            && var (d, ok, g) := DecodeHeader(CodecState(true, 0, f.buf[..f.next]));
               && (ok && g == h <==> HeaderInRange(h))
               && (ok ==> d == CodecState(true, t.next, f.buf[..f.next]) && d.next <= f.next
                          && f.buf[d.next..f.next] == body)
  {
    hide DecodeHeader, FlagsOctet, LengthsOctet, IntBytes, HeaderInRange, HeaderFixed, Ids, Emits, FinalSize;
    HeaderOctets(s, h, t, u, body);
    var f := FinalSize(u, h.dataLen);
    var octets := f.buf[..f.next];
    AllAhead(octets);
    HeaderDecodes(CodecState(true, 0, octets), h, h.dataLen / 256, h.dataLen % 256, body);
  }

  lemma WhereItFits(s: CodecState, t: CodecState, u: CodecState, a: seq<uint8>, b: seq<uint8>)
    requires Emits(s, t, a) && Emits(s, u, a + b) && u.valid
    ensures t.valid
  {
  }

  lemma SizeKeeps(u: CodecState, len: nat)
    ensures FinalSize(u, len).next == u.next && |FinalSize(u, len).buf| == |u.buf|
  {
  }

  lemma AllAhead(d: seq<uint8>)
    ensures Ahead(CodecState(true, 0, d), d)
  {
    assert d[0..|d|] == d;
  }

  lemma FourOctets(h: Header, x: uint8, y: uint8)
    requires 0 < h.eidLen && 0 < h.seqLen
    ensures |HeaderFixed(h, x, y)| == 4
  {
  }

  lemma Written(s: CodecState, t: CodecState, d: seq<uint8>)
    requires Emits(s, t, d) && s.next == 0 && (t.valid || (s.valid && |d| <= |s.buf|))
    ensures t.valid && t.next == |d| <= |t.buf| && t.buf[..t.next] == d
  {
  }

  lemma SizeFixed(u: CodecState, h: Header, x: uint8, y: uint8, rest: seq<uint8>)
    requires 0 < h.eidLen && 0 < h.seqLen && h.dataLen < 0x1_0000
    requires u.valid && u.next <= |u.buf| && u.buf[..u.next] == HeaderFixed(h, x, y) + rest
    ensures var buf := FinalSize(u, h.dataLen).buf;
            u.next <= |buf| && buf[..u.next] == HeaderFixed(h, (h.dataLen / 256) % 256, h.dataLen % 256) + rest
  {
    hide FlagsOctet, LengthsOctet;
    var buf, was := FinalSize(u, h.dataLen).buf, HeaderFixed(h, x, y) + rest;
    forall i | 0 <= i < u.next
      ensures buf[i] == (HeaderFixed(h, (h.dataLen / 256) % 256, h.dataLen % 256) + rest)[i]
    {
      assert u.buf[..u.next][i] == was[i];
    }
  }

  lemma NoHeader(s: CodecState, h: Header, body: seq<uint8>)
    requires s.valid && s.next == 0 && 0 < h.eidLen && 0 < h.seqLen && |s.buf| < 4
    ensures !EncodeHeader(s, h).valid && !Write(EncodeHeader(s, h), body).valid
  {
  }
}
