/** The encoder and decoder objects of the source: a buffer, a position and a sticky failure flag. */
module CodecBuffers {
  import opened Crc
  import opened Codec

  class Encoder {
    const base: array<uint8>
    var isValid: bool
    var nextOffset: nat

    ghost predicate Valid()
      reads this
    {
      nextOffset <= base.Length
    }

    ghost function Abs(): CodecState
      reads this, base
    {
      CodecState(isValid, nextOffset, base[..])
    }

    constructor (buffer: array<uint8>)
      ensures Valid() && base == buffer && Abs() == CodecState(true, 0, buffer[..])
    {
      base := buffer;
      isValid, nextOffset := true, 0;
    }

    method CheckSize(chunkSize: nat) returns (ok: bool)
      requires Valid()
      modifies this
      ensures Valid() && Abs() == Advance(old(Abs()), chunkSize) && ok == isValid
    {
      var next := nextOffset + chunkSize;
      if base.Length < next {
        isValid := false;
      } else {
        nextOffset := next;
      }
      ok := isValid;
    }

    // A chunk reserved, and filled if there is one.
    method PutChunk(d: seq<uint8>)
      requires Valid()
      modifies this, base
      ensures Valid() && Abs() == Write(old(Abs()), d)
    {
      var at := nextOffset;
      var ok := CheckSize(|d|);
      if ok {
        forall i | 0 <= i < |d| {
          base[at + i] := d[i];
        }
        assert base[..] == old(base[..])[..at] + d + old(base[..])[at + |d|..];
      }
    }

    // From the least significant octet to the first one.
    method StoreInteger(at: nat, size: nat, value: nat)
      requires at + size <= base.Length
      modifies base
      ensures base[..] == old(base[..at]) + IntBytes(value, size) + old(base[at + size..])
    {
      var left: nat, rest: nat := size, value;
      ghost var done: seq<uint8> := [];
      while 0 < left
        invariant left <= size && |done| == size - left
        invariant IntBytes(value, size) == IntBytes(rest, left) + done
        invariant base[..] == old(base[..at + left]) + done + old(base[at + size..])
      {
        left := left - 1;
        done := [rest % 256] + done;
        base[at + left] := rest % 256;
        rest := rest / 256;
      }
    }

    method EncodeIntegerInSize(value: nat, size: nat)
      requires Valid()
      modifies this, base
      ensures Valid() && Abs() == Write(old(Abs()), IntBytes(value, size))
    {
      hide IntBytes;
      var at := nextOffset;
      var ok := CheckSize(size);
      if ok {
        StoreInteger(at, size, value);
      }
    }

    method EncodeLvItem(d: seq<uint8>)
      requires Valid() && |d| < 256
      modifies this, base
      ensures Valid() && Abs() == EncodeLv(old(Abs()), d)
    {
      hide Write;
      PutChunk([|d|]);
      if isValid && 0 < |d| {
        PutChunk(d);
      }
    }

    method EncodeTlvItem(t: Tlv)
      requires Valid() && WellTyped(t)
      modifies this, base
      ensures Valid() && Abs() == EncodeTlv(old(Abs()), t)
    {
      hide Write, IntBytes;
      match t {
        case EntityId(length, eid) =>
          PutChunk([TLV_ENTITY_ID, length]);
          if isValid {
            EncodeIntegerInSize(eid, length);
          }
        case OtherTlv(kind, data) =>
          PutChunk([kind, |data|]);
          if isValid && 0 < |data| {
            PutChunk(data);
          }
      }
    }

    method EncodeAllTlv(ts: seq<Tlv>)
      requires Valid() && AllTyped(ts)
      modifies this, base
      ensures Valid() && Abs() == EncodeTlvs(old(Abs()), ts)
    {
      hide EncodeTlv;
      var i := 0;
      while isValid && i < |ts|
        invariant Valid() && i <= |ts|
        invariant EncodeTlvs(old(Abs()), ts) == EncodeTlvs(Abs(), ts[i..])
        decreases |ts| - i
      {
        assert ts[i..][1..] == ts[i + 1..];
        EncodeTlvItem(ts[i]);
        i := i + 1;
      }
    }

    method EncodeAllSegments(srs: seq<SegmentRequest>)
      requires Valid()
      modifies this, base
      ensures Valid() && Abs() == EncodeSegs(old(Abs()), srs)
    {
      hide Write, SegBytes;
      var i := 0;
      while isValid && i < |srs|
        invariant Valid() && i <= |srs|
        invariant EncodeSegs(old(Abs()), srs) == EncodeSegs(Abs(), srs[i..])
        decreases |srs| - i
      {
        assert srs[i..][1..] == srs[i + 1..];
        PutChunk(SegBytes(srs[i]));
        i := i + 1;
      }
    }

    method EncodeMdPdu(p: MdPdu)
      requires Valid() && |p.src| < 256 && |p.dst| < 256
      modifies this, base
      ensures Valid() && Abs() == EncodeMd(old(Abs()), p)
    {
      hide Write, MdFixed, EncodeLv;
      PutChunk(MdFixed(p));
      if isValid {
        EncodeLvItem(p.src);
        EncodeLvItem(p.dst);
      }
    }

    method EncodeEofPdu(p: EofPdu)
      requires Valid() && AllTyped(p.tlvs)
      modifies this, base
      ensures Valid() && Abs() == EncodeEof(old(Abs()), p)
    {
      hide Write, EofFixed, EncodeTlvs;
      PutChunk(EofFixed(p));
      if isValid {
        EncodeAllTlv(p.tlvs);
      }
    }

    method EncodeFinPdu(p: FinPdu)
      requires Valid() && AllTyped(p.tlvs)
      modifies this, base
      ensures Valid() && Abs() == EncodeFin(old(Abs()), p)
    {
      hide Write, FinOctet, EncodeTlvs;
      PutChunk([FinOctet(p)]);
      if isValid {
        EncodeAllTlv(p.tlvs);
      }
    }

    method EncodeAckPdu(p: AckPdu)
      requires Valid()
      modifies this, base
      ensures Valid() && Abs() == EncodeAck(old(Abs()), p)
    {
      PutChunk(AckOctets(p));
    }

    method EncodeNakPdu(p: NakPdu)
      requires Valid()
      modifies this, base
      ensures Valid() && Abs() == EncodeNak(old(Abs()), p)
    {
      hide Write, NakFixed, EncodeSegs;
      PutChunk(NakFixed(p));
      if isValid {
        EncodeAllSegments(p.segs);
      }
    }

    method EncodeFileData(offset: uint32, data: seq<uint8>)
      requires Valid()
      modifies this, base
      ensures Valid() && Abs() == EncodeFd(old(Abs()), offset, data)
    {
      hide Write, IntBytes;
      EncodeIntegerInSize(offset, 4);
      PutChunk(data);
    }

    // The two octets of the length are reserved but not written.
    method EncodeHeaderWithoutSize(h: Header)
      requires Valid() && 0 < h.eidLen && 0 < h.seqLen
      modifies this, base
      ensures Valid() && Abs() == EncodeHeader(old(Abs()), h)
    {
      hide FlagsOctet, LengthsOctet, IntBytes;
      var at := nextOffset;
      ghost var was := Abs();
      var ok := CheckSize(4);
      if ok {
        base[at] := FlagsOctet(h);
        base[at + 3] := LengthsOctet(h);
        assert Abs() == Write(was, [FlagsOctet(h), was.buf[at + 1], was.buf[at + 2], LengthsOctet(h)]);
      }
      if at + 4 <= base.Length {
        hide Write;
        if ok {
          EncodeIntegerInSize(h.src, h.eidLen);
          EncodeIntegerInSize(h.seqNum, h.seqLen);
          EncodeIntegerInSize(h.dst, h.eidLen);
        }
      }
    }

    method EncodeHeaderFinalSize(len: nat)
      requires Valid()
      modifies this, base
      ensures Valid() && Abs() == FinalSize(old(Abs()), len)
    {
      if isValid && 4 <= nextOffset {
        base[2] := len % 256;
        base[1] := (len / 256) % 256;
      }
      isValid := false;
    }
  }

  class Decoder {
    const base: array<uint8>
    var isValid: bool
    var nextOffset: nat

    ghost predicate Valid()
      reads this
    {
      nextOffset <= base.Length
    }

    ghost function Abs(): CodecState
      reads this, base
    {
      CodecState(isValid, nextOffset, base[..])
    }

    constructor (buffer: array<uint8>)
      ensures Valid() && base == buffer && Abs() == CodecState(true, 0, buffer[..])
    {
      base := buffer;
      isValid, nextOffset := true, 0;
    }

    method TakeChunk(n: nat) returns (ok: bool, d: seq<uint8>)
      requires Valid()
      modifies this
      ensures Valid() && (Abs(), d) == Read(old(Abs()), n) && ok == isValid
    {
      var at := nextOffset;
      if base.Length < at + n {
        isValid := false;
      } else {
        nextOffset := at + n;
      }
      ok := isValid;
      d := if ok then base[at..at + n] else [];
    }

    // From the most significant octet on, into 64 bits.
    method DecodeIntegerInSize(n: nat) returns (value: nat)
      requires Valid()
      modifies this
      ensures Valid() && Abs() == Read(old(Abs()), n).0 && value == IntOf(Read(old(Abs()), n).1)
    {
      value := 0;
      var ok, d := TakeChunk(n);
      if ok {
        for i := 0 to n
          invariant value == IntOf(d[..i])
        {
          assert d[..i + 1][..i] == d[..i];
          value := (value * 256) % 0x1_0000_0000_0000_0000 + d[i];
        }
        assert d[..n] == d;
      }
    }

    method DecodeLvItem() returns (d: seq<uint8>)
      requires Valid()
      modifies this
      ensures Valid() && (Abs(), d) == DecodeLv(old(Abs()))
    {
      hide Read;
      var ok, l := TakeChunk(1);
      d := [];
      if ok {
        ok, d := TakeChunk(l[0]);
      }
    }

    method DecodeTlvItem() returns (t: Tlv)
      requires Valid()
      modifies this
      ensures Valid() && (Abs(), t) == DecodeTlv(old(Abs()))
    {
      hide Read, IntOf;
      var ok, h := TakeChunk(2);
      t := OtherTlv(0, []);
      if ok {
        if h[0] == TLV_ENTITY_ID {
          var eid := DecodeIntegerInSize(h[1]);
          t := EntityId(h[1], eid % M);
        } else {
          var d;
          ok, d := TakeChunk(h[1]);
          t := OtherTlv(h[0], d);
        }
      }
    }

    method DecodeAllTlv(max: nat) returns (ts: seq<Tlv>)
      requires Valid()
      modifies this
      ensures Valid() && (Abs(), ts) == DecodeTlvs(old(Abs()), max)
    {
      hide DecodeTlv;
      ts := [];
      var limit := max;
      ghost var result := DecodeTlvs(Abs(), max);
      while 0 < limit && base.Length != nextOffset
        invariant Valid()
        invariant result.0 == DecodeTlvs(Abs(), limit).0 && result.1 == ts + DecodeTlvs(Abs(), limit).1
        decreases limit
      {
        limit := limit - 1;
        var t := DecodeTlvItem();
        if !isValid {
          assert ts + [] == ts;
          break;
        }
        assert ts + ([t] + DecodeTlvs(Abs(), limit).1) == ts + [t] + DecodeTlvs(Abs(), limit).1;
        ts := ts + [t];
      }
      assert ts + [] == ts;
    }

    method DecodeSegmentRequest() returns (sr: SegmentRequest)
      requires Valid()
      modifies this
      ensures Valid() && (Abs(), sr) == DecodeSeg(old(Abs()))
    {
      hide Read, IntOf;
      var ok, d := TakeChunk(8);
      sr := SegmentRequest(0, 0);
      if ok {
        sr := SegmentRequest(IntOf(d[..4]) % M, IntOf(d[4..]) % M);
      }
    }

    method DecodeAllSegments(max: nat) returns (srs: seq<SegmentRequest>)
      requires Valid()
      modifies this
      ensures Valid() && (Abs(), srs) == DecodeSegs(old(Abs()), max)
    {
      hide DecodeSeg;
      srs := [];
      var limit := max;
      ghost var result := DecodeSegs(Abs(), max);
      while 0 < limit && base.Length != nextOffset
        invariant Valid()
        invariant result.0 == DecodeSegs(Abs(), limit).0 && result.1 == srs + DecodeSegs(Abs(), limit).1
        decreases limit
      {
        limit := limit - 1;
        var sr := DecodeSegmentRequest();
        if !isValid {
          assert srs + [] == srs;
          break;
        }
        assert srs + ([sr] + DecodeSegs(Abs(), limit).1) == srs + [sr] + DecodeSegs(Abs(), limit).1;
        srs := srs + [sr];
      }
      assert srs + [] == srs;
    }

    method DecodePduHeader() returns (ok: bool, h: Header)
      requires Valid()
      modifies this
      ensures Valid() && (Abs(), ok, h) == DecodeHeader(old(Abs()))
    {
      hide Read, IntOf, Field;
      var got, d := TakeChunk(4);
      ok, h := true, Header(0, 0, 0, 0, 0, 0, 0, 0, 0, 0, 0, 0, 0, 0);
      if got {
        var eidLen, seqLen := Field(d[3], 4, 3) + 1, Field(d[3], 0, 3) + 1;
        h := Header(Field(d[0], 5, 3), Field(d[0], 4, 1), Field(d[0], 3, 1), Field(d[0], 2, 1), Field(d[0], 1, 1),
                    Field(d[0], 0, 1), Field(d[3], 7, 1), eidLen, Field(d[3], 3, 1), seqLen,
                    256 * (d[1] as nat) + d[2] as nat, 0, 0, 0);
        if EID_OCTETS < eidLen || EID_OCTETS < seqLen {
          ok := false;
        } else {
          var src := DecodeIntegerInSize(eidLen);
          var seqNum := DecodeIntegerInSize(seqLen);
          var dst := DecodeIntegerInSize(eidLen);
          h := h.(src := src % M, dst := dst % M, seqNum := seqNum % M);
        }
      }
    }

    method DecodeFileData() returns (offset: nat, data: seq<uint8>)
      requires Valid()
      modifies this
      ensures Valid() && (Abs(), offset, data) == DecodeFd(old(Abs()))
    {
      hide IntOf;
      offset, data := 0, [];
      var ok, h := TakeChunk(4);
      if ok {
        offset := IntOf(h) % M;
        ok, data := TakeChunk(base.Length - nextOffset);
      }
    }

    method DecodeMdPdu() returns (p: MdPdu)
      requires Valid()
      modifies this
      ensures Valid() && (Abs(), p) == DecodeMd(old(Abs()))
    {
      hide Read, DecodeLv, IntOf, Field;
      var ok, h := TakeChunk(5);
      p := MdPdu(0, 0, 0, [], []);
      if ok {
        var src := DecodeLvItem();
        var dst := DecodeLvItem();
        p := MdPdu(Field(h[0], 7, 1), Field(h[0], 0, 4), IntOf(h[1..5]) % M, src, dst);
      }
    }

    method DecodeEofPdu() returns (p: EofPdu)
      requires Valid()
      modifies this
      ensures Valid() && (Abs(), p) == DecodeEof(old(Abs()))
    {
      hide Read, DecodeTlvs, IntOf, Field;
      var ok, h := TakeChunk(9);
      p := EofPdu(0, 0, 0, []);
      if ok {
        var ts := DecodeAllTlv(MAX_TLV);
        p := EofPdu(Field(h[0], 4, 4), IntOf(h[1..5]) % M, IntOf(h[5..9]) % M, ts);
      }
    }

    method DecodeFinPdu() returns (p: FinPdu)
      requires Valid()
      modifies this
      ensures Valid() && (Abs(), p) == DecodeFin(old(Abs()))
    {
      hide Read, DecodeTlvs, Field;
      var ok, h := TakeChunk(1);
      p := FinPdu(0, 0, 0, []);
      if ok {
        var ts := DecodeAllTlv(MAX_TLV);
        p := FinPdu(Field(h[0], 4, 4), Field(h[0], 2, 1), Field(h[0], 0, 2), ts);
      }
    }

    method DecodeAckPdu() returns (p: AckPdu)
      requires Valid()
      modifies this
      ensures Valid() && (Abs(), p) == DecodeAck(old(Abs()))
    {
      hide Read, Field;
      var ok, h := TakeChunk(2);
      p := if ok then AckPdu(Field(h[0], 4, 4), Field(h[0], 0, 4), Field(h[1], 4, 4), Field(h[1], 0, 2))
           else AckPdu(0, 0, 0, 0);
    }

    method DecodeNakPdu() returns (p: NakPdu)
      requires Valid()
      modifies this
      ensures Valid() && (Abs(), p) == DecodeNak(old(Abs()))
    {
      hide Read, DecodeSegs, IntOf;
      var ok, h := TakeChunk(8);
      p := NakPdu(0, 0, []);
      if ok {
        var srs := DecodeAllSegments(MAX_SEGMENTS);
        p := NakPdu(IntOf(h[..4]) % M, IntOf(h[4..]) % M, srs);
      }
    }
  }
}
