/** What may be on the link between the two ends. */
module Link {
  import opened Cfdp
  import opened Crc
  import opened ChunkSpec

  // What is known of a run so far: nothing; that no EOF without an error was sent;
  // or that everything sent is as it is in the source. In the last case `known` are the
  // bytes the receiver's chunk lists remembered already when they were handed out.
  datatype Course = Unknown | Barren | Sound(known: iset<int>)

  // What the sender sends: data that lie in the file, and metadata that give its size.
  predicate Genuine(p: Pdu, src: seq<uint8>, c: Course) {
    match p
    case FileData(off, d) => d != [] && off + |d| <= |src| && (c.Sound? ==> d == src[off..off + |d|])
    case Metadata(_, size, _, _) => size == |src|
    case Eof(cc, _, _) => c.Barren? ==> IsError(cc)
    case _ => true
  }

  predicate ClaimsRetained(p: Pdu) { p.Fin? && p.dc == DC_COMPLETE && p.fs == FS_RETAINED }

  // What the receiver sends: retention is claimed only if it is a fact, and every
  // request is one the sender's chunk list accepts.
  ghost predicate Honest(p: Pdu, kept: bool) {
    && (ClaimsRetained(p) ==> kept)
    && (p.Nak? ==>
          forall k :: 0 <= k < |p.segs| ==> p.segs[k] == Seg(0, 0) || p.segs[k].start < p.segs[k].end <= U32_MAX)
  }

  // Byte x of the file is that of the source.
  predicate Agrees(file: seq<uint8>, src: seq<uint8>, x: int) {
    0 <= x < |file| && x < |src| && file[x] == src[x]
  }

  // The file is the source, but for the bytes in `known`.
  ghost predicate Right(file: seq<uint8>, src: seq<uint8>, known: iset<int>) {
    |file| <= |src| && forall x :: 0 <= x < |src| && x !in known ==> Agrees(file, src, x)
  }

  // Nothing excepted, it is the source.
  lemma RightIsSource(file: seq<uint8>, src: seq<uint8>, known: iset<int>)
    requires Right(file, src, known) && forall x :: 0 <= x < |src| ==> x !in known
    ensures file == src
  {
    if src != [] {
      assert Agrees(file, src, |src| - 1);
    }
    forall x | 0 <= x < |src| ensures file[x] == src[x] {
      assert Agrees(file, src, x);
    }
  }

  // What a claim of retention stands for.
  ghost predicate Kept(c: Course, src: seq<uint8>, retained: Option<seq<uint8>>) {
    c.Unknown? || (c.Sound? && retained.Some? && Right(retained.value, src, c.known))
  }
}
