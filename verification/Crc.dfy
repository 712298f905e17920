/** The streaming modular checksum of section 4.2 of CCSDS 727.0-B-5, as a 32-bit shift register. */
module Crc {

  const M := 0x1_0000_0000

  type uint8 = x: int | 0 <= x < 256
  type uint32 = x: int | 0 <= x < 0x1_0000_0000

  // Unsigned 32-bit addition.
  function Add32(a: nat, b: nat): (r: uint32) { (a + b) % M }

  lemma Add32Laws(a: nat, b: nat, c: nat)
    ensures Add32(a, b) == Add32(b, a)
    ensures Add32(Add32(a, b), c) == Add32(a, Add32(b, c))
    ensures a < M ==> Add32(0, a) == a
  {
    var q, p := (a + b) / M, (b + c) / M;
    assert a + b == M * q + Add32(a, b) && b + c == M * p + Add32(b, c);
    assert a + b + c == M * q + (Add32(a, b) + c) && a + b + c == M * p + (a + Add32(b, c));
  }

  // ---------- the definition ----------

  // Big-endian value of at most four bytes.
  function Value(d: seq<uint8>): (v: nat) {
    if d == [] then 0 else 256 * Value(d[..|d| - 1]) + d[|d| - 1]
  }

  // The word of four bytes, the last ones zero if there are fewer.
  function Word(d: seq<uint8>): nat
    requires |d| <= 4
  {
    if |d| == 0 || |d| == 4 then Value(d) else Value(d) * Weight(|d|)
  }

  // Sum modulo 2^32 of the four-byte words of the zero-padded data.
  function Checksum(d: seq<uint8>): (r: nat)
    ensures r < M
    decreases |d|
  {
    if |d| < 4 then Add32(0, Word(d))
    else Add32(Word(d[..4]), Checksum(d[4..]))
  }

  // ---------- the register ----------

  datatype State = State(working: uint32, result: uint32, index: nat)

  const START := State(0, 0, 0)

  // A left shift by eight drops the top byte and leaves eight zero bits, so the
  // following "or" adds the byte.
  function DigestByte(c: State, b: uint8): State {
    var w := (c.working * 256) % M + b;
    if c.index + 1 == 4 then State(w, Add32(c.result, w), 0) else State(w, c.result, c.index + 1)
  }

  function Digest(c: State, d: seq<uint8>): State
    decreases |d|
  {
    if d == [] then c else DigestByte(Digest(c, d[..|d| - 1]), d[|d| - 1])
  }

  // working << (8 * (4 - index))
  function Shifted(w: uint32, index: nat): uint32 {
    if index == 1 then (w * 0x100_0000) % M
    else if index == 2 then (w * 0x1_0000) % M
    else if index == 3 then (w * 0x100) % M
    else 0
  }

  function Finalize(c: State): State {
    if c.index == 0 then c else State(0, Add32(c.result, Shifted(c.working, c.index)), 0)
  }

  class Register {
    var working: uint32
    var result: uint32
    var index: nat

    ghost function Abs(): State
      reads this
    {
      State(working, result, index)
    }

    constructor ()
      ensures Abs() == START
    {
      working, result, index := 0, 0, 0;
    }

    method Start()
      modifies this
      ensures Abs() == START
    {
      working, result, index := 0, 0, 0;
    }

    method DigestAll(data: seq<uint8>)
      modifies this
      ensures Abs() == Digest(old(Abs()), data)
    {
      assert data[..|data|] == data;
      for i := 0 to |data|
        invariant Abs() == Digest(old(Abs()), data[..i])
      {
        assert data[..i + 1][..i] == data[..i];
        ShiftTop(working);
        working := (working * 256) % M;
        working := working + data[i];
        index := index + 1;
        if index == 4 {
          result := (result + working) % M;
          index := 0;
        }
      }
    }

    method FinalizeResult()
      modifies this
      ensures Abs() == Finalize(old(Abs()))
    {
      if index != 0 {
        result := (result + Shifted(working, index)) % M;
        index := 0;
        working := 0;
      }
    }
  }

  // ---------- the register computes the definition ----------

  // Cutting a stream into two digests changes nothing, not even the register.
  lemma {:induction false} DigestConcat(c: State, a: seq<uint8>, b: seq<uint8>)
    ensures Digest(c, a + b) == Digest(Digest(c, a), b)
    decreases |b|
  {
    if b == [] {
      assert a + b == a;
    } else {
      assert (a + b)[..|a + b| - 1] == a + b[..|b| - 1];
      DigestConcat(c, a, b[..|b| - 1]);
    }
  }

  function Flatten(parts: seq<seq<uint8>>): seq<uint8> {
    if parts == [] then [] else parts[0] + Flatten(parts[1..])
  }

  function DigestParts(c: State, parts: seq<seq<uint8>>): State
    decreases |parts|
  {
    if parts == [] then c else DigestParts(Digest(c, parts[0]), parts[1..])
  }

  // Any partition of a stream into digests, empty ones included, gives the same register.
  lemma {:induction false} SplitIndependence(c: State, parts: seq<seq<uint8>>)
    ensures DigestParts(c, parts) == Digest(c, Flatten(parts))
    decreases |parts|
  {
    if parts != [] {
      SplitIndependence(Digest(c, parts[0]), parts[1..]);
      DigestConcat(c, parts[0], Flatten(parts[1..]));
    }
  }

  // The bytes of the register that the data of the current word fills.
  function Low(index: nat): nat {
    if index == 0 then 1 else if index == 1 then 0x100 else if index == 2 then 0x1_0000 else 0x100_0000
  }

  // The register holds `base` plus the complete words of `d`; its low bytes are
  // the incomplete word, the others are stale.
  ghost predicate Holds(c: State, base: uint32, d: seq<uint8>) {
    var k := |d| % 4;
    && c.index == k
    && c.result == Add32(base, Checksum(d[..|d| - k]))
    && c.working % Low(k) == Value(d[|d| - k..])
  }

  // One more word at the end.
  lemma {:induction false} ChecksumAppendWord(d: seq<uint8>, w: seq<uint8>)
    requires |d| % 4 == 0 && |w| <= 4
    ensures Checksum(d + w) == Add32(Checksum(d), Word(w))
    decreases |d|
  {
    hide Add32, Word;
    if d == [] {
      EmptyWord();
      assert d + w == w;
      Add32Laws(Word(w), 0, 0);
      if |w| == 4 {
        assert w[..4] == w && w[4..] == [];
      }
    } else {
      assert (d + w)[..4] == d[..4] && (d + w)[4..] == d[4..] + w;
      ChecksumAppendWord(d[4..], w);
      Add32Laws(Word(d[..4]), Checksum(d[4..]), Word(w));
    }
  }

  lemma EmptyWord()
    ensures Word([]) == 0 && Checksum([]) == 0
  {
  }

  // Quotient and remainder are unique.
  lemma ModIs(x: nat, m: nat, q: nat, r: nat)
    requires r < m && x == m * q + r
    ensures x % m == r
  {
    var p := x / m;
    assert x == m * p + x % m;
    assert m * (q - p) == x % m - r;
    MulSign(m, q - p);
  }

  lemma MulSign(m: int, d: int)
    requires 0 <= m
    ensures 0 < d ==> m <= m * d
    ensures d < 0 ==> m * d <= -m
  {
    if 0 < d {
      assert m * d == m + m * (d - 1);
    } else if d < 0 {
      assert m * d == -m - m * (-d - 1);
    }
  }

  // Shifting out the top byte.
  lemma ShiftTop(w: uint32)
    ensures (w * 256) % M == 256 * (w % 0x100_0000)
  {
    var q, v := w / 0x100_0000, w % 0x100_0000;
    assert w == 0x100_0000 * q + v;
    ModIs(w * 256, M, q, 256 * v);
  }

  lemma ShiftIn(w: uint32, b: uint8, k: nat)
    requires k < 4
    ensures k < 3 ==> ((w * 256) % M + b) % Low(k + 1) == 256 * (w % Low(k)) + b
    ensures k == 3 ==> (w * 256) % M + b == 256 * (w % Low(k)) + b
  {
    ShiftTop(w);
    var q, v := w / 0x100_0000, w % 0x100_0000;
    if k == 0 {
      ModIs(256 * v + b, 0x100, v, b);
    } else if k == 1 {
      ShiftIn1(q, v, b);
    } else if k == 2 {
      ShiftIn2(q, v, b);
    }
  }

  lemma ShiftIn1(q: nat, v: nat, b: uint8)
    ensures (256 * v + b) % 0x1_0000 == 256 * ((0x100_0000 * q + v) % 0x100) + b
  {
    var p, r := v / 0x100, v % 0x100;
    assert v == 0x100 * p + r;
    ModIs(256 * v + b, 0x1_0000, p, 256 * r + b);
    ModIs(0x100_0000 * q + v, 0x100, 0x1_0000 * q + p, r);
  }

  lemma ShiftIn2(q: nat, v: nat, b: uint8)
    ensures (256 * v + b) % 0x100_0000 == 256 * ((0x100_0000 * q + v) % 0x1_0000) + b
  {
    var p, r := v / 0x1_0000, v % 0x1_0000;
    assert v == 0x1_0000 * p + r;
    ModIs(256 * v + b, 0x100_0000, p, 256 * r + b);
    ModIs(0x100_0000 * q + v, 0x1_0000, 0x100 * q + p, r);
  }

  lemma {:induction false} DigestHolds(c: State, base: uint32, d: seq<uint8>)
    requires c.index == 0 && c.result == base
    ensures Holds(Digest(c, d), base, d)
    decreases |d|
  {
    if d != [] {
      var e, b := d[..|d| - 1], d[|d| - 1];
      DigestHolds(c, base, e);
      HoldsStep(Digest(c, e), base, e, b);
      assert e + [b] == d;
    } else {
      assert d[..0] == [] && d[0..] == [];
    }
  }

  lemma ValueAppend(d: seq<uint8>, b: uint8)
    ensures Value(d + [b]) == 256 * Value(d) + b
  {
    assert (d + [b])[..|d|] == d;
  }

  lemma HoldsStep(c: State, base: uint32, e: seq<uint8>, b: uint8)
    requires Holds(c, base, e)
    ensures Holds(DigestByte(c, b), base, e + [b])
  {
    var k := |e| % 4;
    ShiftIn(c.working, b, k);
    ValueAppend(e[|e| - k..], b);
    if k < 3 {
      InnerByte(c, base, e, b, k);
    } else {
      LastByte(c, base, e, b);
    }
  }

  lemma InnerByte(c: State, base: uint32, e: seq<uint8>, b: uint8, k: nat)
    requires Holds(c, base, e) && k == |e| % 4 && k < 3
    requires ((c.working * 256) % M + b) % Low(k + 1) == Value(e[|e| - k..] + [b])
    ensures Holds(DigestByte(c, b), base, e + [b])
  {
    hide Add32, Value, Checksum, Low;
    var d := e + [b];
    assert d[|e| - k..] == e[|e| - k..] + [b];
    assert d[..|e| - k] == e[..|e| - k];
    ModIs(|d|, 4, |e| / 4, k + 1);
  }

  lemma LastByte(c: State, base: uint32, e: seq<uint8>, b: uint8)
    requires Holds(c, base, e) && |e| % 4 == 3
    requires (c.working * 256) % M + b == Value(e[|e| - 3..] + [b])
    ensures Holds(DigestByte(c, b), base, e + [b])
  {
    hide Add32, Value, Checksum;
    var d, full, word := e + [b], e[..|e| - 3], e[|e| - 3..] + [b];
    assert d == full + word;
    assert d[..|d|] == d && d[|d|..] == [];
    ChecksumAppendWord(full, word);
    Add32Laws(base, Checksum(full), Word(word));
    NoBytes();
  }

  lemma NoBytes()
    ensures Value([]) == 0
  {
  }

  // Finalizing adds the incomplete word, zero-padded; stale bytes are shifted out.
  lemma FinalizeHolds(c: State, base: uint32, d: seq<uint8>)
    requires Holds(c, base, d)
    ensures Finalize(c).result == Add32(base, Checksum(d)) && Finalize(c).index == 0
  {
    hide Add32, Value, Checksum;
    var k := |d| % 4;
    var full, tail := d[..|d| - k], d[|d| - k..];
    assert d == full + tail;
    if k == 0 {
      assert full == d;
    } else {
      ChecksumAppendWord(full, tail);
      ShiftOut(c.working, k);
      Add32Laws(base, Checksum(full), Word(tail));
    }
  }

  function Weight(k: nat): nat {
    if k == 3 then 0x100 else if k == 2 then 0x1_0000 else 0x100_0000
  }

  lemma ShiftOut(w: uint32, k: nat)
    requires 1 <= k <= 3
    ensures Shifted(w, k) == (w % Low(k)) * Weight(k)
  {
    if k == 1 {
      var q, r := w / 0x100, w % 0x100;
      assert w == 0x100 * q + r;
      ModIs(w * 0x100_0000, M, q, r * 0x100_0000);
    } else if k == 2 {
      var q, r := w / 0x1_0000, w % 0x1_0000;
      assert w == 0x1_0000 * q + r;
      ModIs(w * 0x1_0000, M, q, r * 0x1_0000);
    } else {
      ShiftTop(w);
    }
  }

  // For every stream and every way of cutting it into digests, the finalized
  // result is the sum of the words of the zero-padded stream.
  lemma StreamingComputesChecksum(parts: seq<seq<uint8>>)
    ensures Finalize(DigestParts(START, parts)).result == Checksum(Flatten(parts))
  {
    hide Digest, Checksum, Add32, Flatten, Holds, Finalize, DigestParts;
    SplitIndependence(START, parts);
    DigestHolds(START, 0, Flatten(parts));
    FinalizeHolds(Digest(START, Flatten(parts)), 0, Flatten(parts));
    Add32Laws(Checksum(Flatten(parts)), 0, 0);
  }

  lemma WholeChecksum(d: seq<uint8>)
    ensures Finalize(Digest(START, d)).result == Checksum(d)
  {
    hide Checksum, Finalize, Digest;
    StreamingComputesChecksum([d]);
    assert [d][1..] == [] && d + [] == d;
    assert DigestParts(START, [d]) == DigestParts(Digest(START, d), []);
    assert DigestParts(Digest(START, d), []) == Digest(START, d);
  }

  // ---------- a register that is read without being finalized ----------

  // The complete words, which is all an unfinalized register adds up.
  function Words(d: seq<uint8>): seq<uint8> { d[..|d| - |d| % 4] }

  // What finalizing makes of the stream: zeros up to the next word.
  function Padded(d: seq<uint8>): (r: seq<uint8>)
    ensures |r| == |d| + (4 - |d| % 4) % 4
  {
    d + Zeros4()[..(4 - |d| % 4) % 4]
  }

  function Zeros4(): seq<uint8> { [0, 0, 0, 0] }

  lemma EmptyHolds()
    ensures Holds(START, 0, [])
  {
    DigestHolds(START, 0, []);
  }

  lemma {:induction false} DigestExtends(c: State, base: uint32, e: seq<uint8>, d: seq<uint8>)
    requires Holds(c, base, e)
    ensures Holds(Digest(c, d), base, e + d)
    decreases |d|
  {
    if d == [] {
      assert e + d == e;
    } else {
      hide Holds, DigestByte;
      var f, b := d[..|d| - 1], d[|d| - 1];
      DigestExtends(c, base, e, f);
      HoldsStep(Digest(c, f), base, e + f, b);
      assert e + f + [b] == e + d;
    }
  }

  lemma UnfinalizedResult(c: State, d: seq<uint8>)
    requires Holds(c, 0, d)
    ensures c.result == Checksum(Words(d))
  {
    hide Checksum, Value;
    Add32Laws(Checksum(Words(d)), 0, 0);
  }

  lemma PaddedWords(d: seq<uint8>)
    ensures |Padded(d)| % 4 == 0 && Words(Padded(d)) == Padded(d)
  {
    var k := |d| % 4;
    ModIs(|Padded(d)|, 4, |d| / 4 + (if k == 0 then 0 else 1), 0);
  }

  lemma PaddedChecksum(d: seq<uint8>)
    ensures Checksum(Padded(d)) == Checksum(d)
  {
    hide Checksum, Value;
    var k := |d| % 4;
    var full, tail := Words(d), d[|d| - k..];
    assert d == full + tail;
    if k == 0 {
      assert Padded(d) == d;
    } else {
      var word := tail + Zeros4()[..4 - k];
      assert Padded(d) == full + word;
      ModIs(|full|, 4, |d| / 4, 0);
      ChecksumAppendWord(full, tail);
      ChecksumAppendWord(full, word);
      PaddedWord(tail);
    }
  }

  lemma PaddedWord(t: seq<uint8>)
    requires 1 <= |t| <= 3
    ensures Word(t + Zeros4()[..4 - |t|]) == Word(t)
  {
    hide Value;
    ValueAppend(t, 0);
    if |t| == 3 {
      assert Zeros4()[..1] == [0];
    } else if |t| == 2 {
      ValueAppend(t + [0], 0);
      assert t + Zeros4()[..2] == t + [0] + [0];
    } else {
      ValueAppend(t + [0], 0);
      ValueAppend(t + [0] + [0], 0);
      assert t + Zeros4()[..3] == t + [0] + [0] + [0];
    }
  }

  // Finalizing is digesting the padding, as far as anything later can tell.
  lemma FinalizePads(c: State, d: seq<uint8>)
    requires Holds(c, 0, d)
    ensures Holds(Finalize(c), 0, Padded(d))
  {
    hide Checksum;
    FinalizeHolds(c, 0, d);
    Add32Laws(Checksum(d), 0, 0);
    PaddedChecksum(d);
    PaddedWords(d);
    NoBytes();
    assert Padded(d)[|Padded(d)|..] == [];
  }

  // ---------- algebra ----------

  // Finalizing twice is finalizing once, and a digest resumed afterwards adds the
  // checksum of the new data to that of the zero-padded old data.
  lemma ResumeAfterFinalize(a: seq<uint8>, b: seq<uint8>)
    ensures var c := Finalize(Digest(START, a));
            && Finalize(c) == c
            && Finalize(Digest(c, b)).result == Add32(Checksum(a), Checksum(b))
  {
    hide Add32, Digest, Checksum, Holds;
    var c := Finalize(Digest(START, a));
    Add32Laws(Checksum(a), 0, 0);
    DigestHolds(START, 0, a);
    FinalizeHolds(Digest(START, a), 0, a);
    DigestHolds(c, c.result, b);
    FinalizeHolds(Digest(c, b), c.result, b);
  }

  // Words simply add up.
  lemma {:induction false} ChecksumConcat(a: seq<uint8>, b: seq<uint8>)
    requires |a| % 4 == 0
    ensures Checksum(a + b) == Add32(Checksum(a), Checksum(b))
    decreases |a|
  {
    hide Add32, Word;
    if a == [] {
      EmptyWord();
      assert a + b == b;
      Add32Laws(Checksum(b), 0, 0);
    } else {
      assert (a + b)[..4] == a[..4] && (a + b)[4..] == a[4..] + b;
      ChecksumConcat(a[4..], b);
      Add32Laws(Word(a[..4]), Checksum(a[4..]), Checksum(b));
    }
  }

  predicate Aligned(parts: seq<seq<uint8>>) {
    forall i :: 0 <= i < |parts| ==> |parts[i]| % 4 == 0
  }

  // The checksum of word-aligned blocks after taking block k to the front.
  lemma {:induction false} TakeOut(parts: seq<seq<uint8>>, k: nat)
    requires k < |parts| && Aligned(parts)
    ensures Checksum(Flatten(parts)) == Add32(Checksum(parts[k]), Checksum(Flatten(parts[..k] + parts[k + 1..])))
    decreases k
  {
    hide Add32, Checksum;
    var rest := parts[..k] + parts[k + 1..];
    ChecksumConcat(parts[0], Flatten(parts[1..]));
    if k == 0 {
      assert rest == parts[1..];
    } else {
      TakeOut(parts[1..], k - 1);
      assert rest[1..] == parts[1..][..k - 1] + parts[1..][k..];
      assert rest[0] == parts[0];
      ChecksumConcat(parts[0], Flatten(rest[1..]));
      Add32Laws(Checksum(parts[0]), Checksum(parts[k]), Checksum(Flatten(rest[1..])));
      Add32Laws(Checksum(parts[k]), Checksum(parts[0]), Checksum(Flatten(rest[1..])));
    }
  }

  // The order of word-aligned blocks does not matter.
  lemma {:induction false} PermutationInvariance(p: seq<seq<uint8>>, q: seq<seq<uint8>>)
    requires multiset(p) == multiset(q) && Aligned(p)
    ensures Checksum(Flatten(p)) == Checksum(Flatten(q))
    decreases |p|
  {
    hide Add32, Checksum;
    assert |p| == |multiset(p)| && |q| == |multiset(q)|;
    if p != [] {
      assert p[0] in multiset(q);
      var k :| 0 <= k < |q| && q[k] == p[0];
      var rest := q[..k] + q[k + 1..];
      SameRest(p, q, k);
      forall i | 0 <= i < |q| ensures |q[i]| % 4 == 0 {
        assert q[i] in multiset(p);
      }
      PermutationInvariance(p[1..], rest);
      TakeOut(p, 0);
      assert p[..0] + p[1..] == p[1..];
      TakeOut(q, k);
    }
  }

  lemma SameRest(p: seq<seq<uint8>>, q: seq<seq<uint8>>, k: nat)
    requires p != [] && k < |q| && q[k] == p[0] && multiset(p) == multiset(q)
    ensures multiset(p[1..]) == multiset(q[..k] + q[k + 1..])
  {
    assert q == q[..k] + [q[k]] + q[k + 1..];
    assert p == [p[0]] + p[1..];
    assert multiset(p[1..]) == multiset(p) - multiset{p[0]};
    assert multiset(q[..k] + q[k + 1..]) == multiset(q) - multiset{p[0]};
  }
}
