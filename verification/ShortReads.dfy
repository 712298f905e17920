/**
 Why a request must not be answered by a read that comes short: a run of both ends in
 which one such read makes the receiver retain another file than the source, and the
 sender delete the source.
 */
module ShortReads {
  import opened Cfdp
  import opened Crc
  import opened ChunkSpec
  import opened Link
  import Gaps
  import Rx = RxSpec
  import RC = RxChecksum
  import Tx = TxSpec
  import opened EndToEnd
  import opened Reach
  import opened Transfer
  import opened Delivery

  // Three words, the first and the last the same, sent as one PDU of two and one of one.
  function A(): seq<uint8> { [0, 0, 0, 1] }

  function B(): seq<uint8> { [0, 0, 0, 2] }

  function Source(): seq<uint8> { A() + B() + A() }

  function Retained(): seq<uint8> { B() + A() + A() }

  // The checksum does not mind the order of words.
  lemma SameChecksum()
    ensures Checksum(Retained()) == Checksum(Source()) && Retained() != Source() && |Retained()| == |Source()| == 12
  {
    hide Checksum;
    var p: seq<seq<uint8>>, q: seq<seq<uint8>> := [A(), B(), A()], [B(), A(), A()];
    var none: seq<seq<uint8>> := [];
    assert multiset(p) == multiset(q) && Aligned(p);
    PermutationInvariance(p, q);
    assert p[1..] == [B(), A()] && p[1..][1..] == [A()] && p[1..][1..][1..] == none;
    assert q[1..] == [A(), A()] && q[1..][1..] == [A()] && q[1..][1..][1..] == none;
    assert Flatten(p) == A() + Flatten(p[1..]) && Flatten(p[1..]) == B() + Flatten([A()]) && Flatten([A()]) == A() + [];
    assert Flatten(q) == B() + Flatten(q[1..]) && Flatten(q[1..]) == A() + Flatten([A()]);
    assert Flatten(p) == Source() && Flatten(q) == Retained();
    assert Source()[3] == 1 && Retained()[3] == 2;
  }

  lemma TwoData()
    ensures DataOf(Source(), 8, 0) == [Packet(false, FileData(0, A() + B())), Packet(false, FileData(8, A()))]
  {
    assert Source()[0..8] == A() + B() && Source()[8..12] == A();
    assert DataOf(Source(), 8, 12) == [];
    assert DataOf(Source(), 8, 8) == [Packet(false, FileData(8, Source()[8..12]))];
  }

  // ---------- the receiver ----------

  // What it has of the file.
  ghost predicate Has(st: Rx.Rx, chunks: seq<Chunk>, temp: seq<uint8>) {
    st.chunks == chunks && st.disk.temp == temp && st.disk.pos == st.data.cachedPos
  }

  lemma MetadataLeaves(cfg: Config, st: Rx.Rx, src: seq<uint8>, closeReq: bool, srcLen: nat, dstLen: nat, env: Rx.Env)
    requires 0 < st.cap && Blank(st) && st.disk.pos == st.data.cachedPos
    ensures Has(Rx.Recv(cfg, st, MdOf(src, closeReq, srcLen, dstLen), env), st.chunks, st.disk.temp)
  {
    hide Rx.RecvMd, Rx.ArmAck, Has;
    var a := Rx.RecvMd(cfg, st, closeReq, |src|, srcLen, dstLen);
    MetadataNoted(cfg, st, closeReq, |src|, srcLen, dstLen);
    assert Rx.Recv(cfg, st, MdOf(src, closeReq, srcLen, dstLen), env) == Rx.ArmInact(cfg, a);
    HasLater(cfg, a, st.chunks, st.disk.temp);
  }

  lemma MetadataNoted(cfg: Config, st: Rx.Rx, closeReq: bool, size: nat, srcLen: nat, dstLen: nat)
    requires st.disk.pos == st.data.cachedPos
    ensures var a := Rx.RecvMd(cfg, st, closeReq, size, srcLen, dstLen);
            Has(a, st.chunks, st.disk.temp) && a.com.ackArmed == st.com.ackArmed
  {
  }

  lemma HasLater(cfg: Config, st: Rx.Rx, chunks: seq<Chunk>, temp: seq<uint8>)
    requires Has(st, chunks, temp)
    ensures Has(Rx.ArmInact(cfg, st), chunks, temp)
  {
  }

  lemma EofLeaves(cfg: Config, st: Rx.Rx, src: seq<uint8>, env: Rx.Env)
    requires 0 < st.cap && Sized(st, src) && st.disk.pos == st.data.cachedPos
    ensures Has(Rx.Recv(cfg, st, EofOf(src), env), st.chunks, st.disk.temp)
  {
    hide Checksum;
  }

  lemma DataWrites(cfg: Config, st: Rx.Rx, off: nat, data: seq<uint8>, env: Rx.Env)
    requires 0 < st.cap && st.phase == Rx.R2 && st.reliable && st.Ok() && st.disk.fdOpen
    requires st.disk.pos == st.data.cachedPos
    requires Rx.Acceptable(FileData(off, data)) && env.seekOk && |data| <= env.written
    ensures Has(Rx.Recv(cfg, st, Packet(false, FileData(off, data)), env), Add(st.cap, st.chunks, Chunk(off, |data|)),
                WriteAt(st.disk.temp, off, data))
  {
    hide Add, WriteAt;
    assert data[..|data|] == data;
  }

  // ---------- lists ----------

  lemma TailAdded(cap: nat)
    requires 0 < cap
    ensures Add(cap, [], Chunk(8, 4)) == [Chunk(8, 4)] && Separated([Chunk(8, 4)])
  {
  }

  lemma HeadRequested(cfg: Config, cap: nat)
    requires 1 < cap && 0 < cfg.maxSegments
    ensures Separated([Chunk(8, 4)])
    ensures Rx.NakSegs(cfg, cap, [Chunk(8, 4)], 12) == [Seg(0, 8)]
  {
    var s := [Chunk(8, 4)];
    var gaps := Gaps.Reported(s, cap, 12, 0);
    assert gaps == [Chunk(0, 8)] + Gaps.LoopGaps(s, 0, cap - 1, 12, 0);
    assert gaps == [Chunk(0, 8)];
    assert gaps[1..] == [];
    var kept := Gaps.Take(gaps, cfg.maxSegments);
    assert kept == [Chunk(0, 8)];
    assert Rx.ToSegs(kept)[0] == Seg(0, 8);
  }

  lemma HeadAdded(cap: nat)
    requires 0 < cap
    ensures Add(cap, [Chunk(8, 4)], Chunk(0, 8)) == [Chunk(0, 12)]
  {
    var s, c := [Chunk(8, 4)], Chunk(0, 8);
    assert s[0].Touches(c);
  }

  lemma NothingLacking(st: Rx.Rx)
    requires st.chunks == [Chunk(0, 12)]
    ensures !Lacking(st, 12)
  {
    forall x | 0 <= x < 12 ensures Covers(st.chunks, x) {
      assert st.chunks[0].Has(x);
    }
  }

  lemma HeadLacking(st: Rx.Rx)
    requires st.chunks == [Chunk(8, 4)]
    ensures Lacking(st, 12)
  {
    assert !Covers(st.chunks, 0);
  }

  lemma Writes()
    ensures WriteAt([], 8, A()) == Zeros(8) + A()
    ensures WriteAt(Zeros(8) + A(), 0, B() + A()) == Retained()
  {
    var t := Zeros(8) + A();
    assert [] + Zeros(8) == Zeros(8) && Zeros(8)[..8] == Zeros(8);
    assert t[..0] == [] && t[8..] == A();
  }

  // ---------- the sender ----------

  function Short(): Tx.Env { Tx.Env(true, 8, true, 4, false, false, true) }

  // Half of the answer is read, nothing is sent, and the file stands at 4.
  lemma ReadsShort(cfg: Config, st: Tx.Tx)
    requires cfg.chunkSize == 8 && Serving(st, Source()) && st.chunks == [Chunk(0, 8)] && st.flags.fdNakPending
    ensures var (t, sent) := Tx.TickNak(cfg, st, Source(), Short());
            sent == [] && t == st.(pos := 4, data := st.data.(cachedPos := 0))
  {
    hide Digest, RemoveFromFirst, WellFormed;
  }

  // So the answer starts at 4, and says that it starts at 0.
  lemma ReadsWrong(cfg: Config, st: Tx.Tx)
    requires cfg.chunkSize == 8 && st.chunks == [Chunk(0, 8)] && st.flags.fdNakPending && st.fdOpen && st.phase == Tx.S2
    requires st.pos == 4 && st.data.cachedPos == 0
    ensures var (t, sent) := Tx.TickNak(cfg, st, Source(), TxGood(cfg));
            && sent == [Packet(false, FileData(0, B() + A()))]
            && t == st.(pos := 12, data := st.data.(cachedPos := 8), chunks := [])
  {
    hide Digest;
    assert Source()[4..12] == B() + A();
  }

  lemma OneRequest(st: Tx.Tx)
    requires 0 < st.cap && st.chunks == [] && st.fsize == 12
    ensures var t := Tx.RecvNak(st, [Seg(0, 8)]);
            t.chunks == [Chunk(0, 8)] && t.flags.fdNakPending && t.data == st.data
  {
    assert [Seg(0, 8)][1..] == [];
    var a := Tx.RecvSeg(st, Seg(0, 8));
    assert Tx.RecvNak(st, [Seg(0, 8)]) == Tx.RecvNak(a, []);
    assert a.chunks == [Chunk(0, 8)];
  }

  // ---------- the run ----------

  // The first data PDU is lost, the metadata, the second one and the EOF arrive.
  lemma HalfArrives(cfg: Config, s: System) returns (t: System)
    requires Able(cfg, Source()) && cfg.chunkSize == 8 && Initial(cfg, Source(), s) && Begins(cfg, Source(), s)
    requires Has(s.rx, [], []) && s.tx.chunks == [] && Tidy(s, Source())
    ensures At(cfg, Source(), Unknown, s, t) && t.toTx == [] && Serving(t.tx, Source()) && t.tx.chunks == []
    ensures Has(t.rx, [Chunk(8, 4)], Zeros(8) + A())
    ensures Eofed(t.rx, Source(), cfg.inactTicks) && t.rx.data.sub == Rx.DataNormal && t.rx.flags.eofAckCount == 0
    ensures !t.rx.flags.sendNak && !t.rx.com.ackArmed
  {
    hide At, Initial, Able, Fresh, Awaiting, Sized, Rx.Recv, Eofed, Checksum, MdOf, EofOf, Add, WriteAt, DataOf;
    var src := Source();
    AbleFacts(cfg, src);
    Stays(cfg, src, Unknown, s);
    var sent := Sending(cfg, src, Unknown, s);
    PassIndices(cfg, src, s.tx);
    TwoData();
    var env := RxGood(12);
    var a := Take(cfg, src, Unknown, s, sent, 0, env);
    TakesMetadata(cfg, s.rx, src, s.tx.com.closeReq, s.tx.srcLen, s.tx.dstLen, env);
    MetadataLeaves(cfg, s.rx, src, s.tx.com.closeReq, s.tx.srcLen, s.tx.dstLen, env);
    var b := Take(cfg, src, Unknown, s, a, 2, env);
    SizedFacts(a.rx, src);
    TakesData(cfg, a.rx, src, 8, A(), env);
    DataWrites(cfg, a.rx, 8, A(), env);
    TailAdded(a.rx.cap);
    Writes();
    SizedFacts(b.rx, src);
    t := Take(cfg, src, Unknown, s, b, 3, env);
    TakesEof(cfg, b.rx, src, env);
    EofLeaves(cfg, b.rx, src, env);
    Lists(cfg, src, Unknown, s, t);
    ServesHere(t.tx, src);
  }

  lemma SizedFacts(st: Rx.Rx, src: seq<uint8>)
    requires Sized(st, src)
    ensures st.phase == Rx.R2 && st.reliable && st.Ok() && st.disk.fdOpen && 0 < st.cap
  {
  }

  // The request for the first half, a short read, and the answer.
  lemma WrongAnswer(cfg: Config, s: System, r: System) returns (t: System)
    requires Able(cfg, Source()) && cfg.chunkSize == 8 && At(cfg, Source(), Unknown, s, r)
    requires r.toTx == [] && Serving(r.tx, Source()) && r.tx.chunks == []
    requires Has(r.rx, [Chunk(8, 4)], Zeros(8) + A())
    requires Eofed(r.rx, Source(), cfg.inactTicks) && r.rx.data.sub == Rx.DataNormal && r.rx.flags.eofAckCount == 0
    requires !r.rx.flags.sendNak && !r.rx.com.ackArmed
    ensures At(cfg, Source(), Unknown, s, t) && Has(t.rx, [Chunk(0, 12)], Retained()) && Waits(cfg, t.rx, Source())
    ensures Awaiting(t.tx, 12) && |t.toTx| == 2 && t.toTx[0] == EofAck()
  {
    hide At, Able, Awaiting, Serving, Rx.Recv, Rx.Tick, Tx.Recv, Tx.TickNak, Eofed, Checksum, Add, WriteAt, Lacking;
    var src := Source();
    AbleFacts(cfg, src);
    LongTimers(cfg, src, r.rx);
    Lists(cfg, src, Unknown, s, r);
    AnswersEof(cfg, r.rx, src);
    AskLeaves(cfg, r.rx, RxGood(12));
    var a := WakeRx(cfg, src, Unknown, s, r, RxGood(12));
    AfterEof(cfg, src, r.rx, a.rx);
    WaitsLong(cfg, a.rx, src);
    var b := Asks(cfg, s, a);
    var c := Answers(cfg, s, b);
    Lists(cfg, src, Unknown, s, c);
    t := Take(cfg, src, Unknown, s, c, |c.toRx| - 1, RxGood(12));
    FillStep(cfg, c.rx, src, 0, B() + A(), RxGood(12));
    FillingFacts(c.rx, src);
    DataWrites(cfg, c.rx, 0, B() + A(), RxGood(12));
    HeadAdded(c.rx.cap);
    Writes();
    PatienceFacts(cfg, src, t.rx);
  }

  lemma FillingFacts(st: Rx.Rx, src: seq<uint8>)
    requires Filling(st, src, 0)
    ensures st.phase == Rx.R2 && st.reliable && st.Ok() && st.disk.fdOpen && 1 < st.cap && st.fsize == |src|
  {
  }

  lemma WaitsLong(cfg: Config, st: Rx.Rx, src: seq<uint8>)
    requires 0 < cfg.crcRate && Waits(cfg, st, src)
    ensures Filling(st, src, 1)
  {
    hide RC.CeilDiv, Checksum;
  }

  lemma Asks(cfg: Config, s: System, r: System) returns (t: System)
    requires Able(cfg, Source()) && At(cfg, Source(), Unknown, s, r) && Has(r.rx, [Chunk(8, 4)], Zeros(8) + A())
    requires Filling(r.rx, Source(), 1) && r.rx.flags.sendNak && r.rx.data.acknak == 0
    ensures At(cfg, Source(), Unknown, s, t) && t == r.(rx := t.rx, toTx := r.toTx + [Packet(false, Nak([Seg(0, 8)]))])
    ensures Has(t.rx, [Chunk(8, 4)], Zeros(8) + A()) && Filling(t.rx, Source(), 0) && !t.rx.flags.sendNak
    ensures t.rx.com.ackArmed && t.rx.ackTimer == cfg.ackTicks
  {
    hide At, Able, Rx.Tick, Eofed, Checksum, Lacking;
    var src := Source();
    AbleFacts(cfg, src);
    Lists(cfg, src, Unknown, s, r);
    FillingLater(r.rx, src);
    FillingFacts(r.rx, src);
    HeadLacking(r.rx);
    LackingFacts(cfg, r.rx, 12);
    AskTick(cfg, r.rx, src, 0);
    AskLeaves(cfg, r.rx, RxGood(12));
    HeadRequested(cfg, r.rx.cap);
    t := WakeRx(cfg, src, Unknown, s, r, RxGood(12));
  }

  lemma FillingLater(st: Rx.Rx, src: seq<uint8>)
    requires Filling(st, src, 1)
    ensures Filling(st, src, 0)
  {
  }

  lemma Answers(cfg: Config, s: System, r: System) returns (t: System)
    requires Able(cfg, Source()) && cfg.chunkSize == 8 && At(cfg, Source(), Unknown, s, r)
    requires r.toTx != [] && r.toTx[|r.toTx| - 1] == Packet(false, Nak([Seg(0, 8)]))
    requires Serving(r.tx, Source()) && r.tx.chunks == []
    ensures At(cfg, Source(), Unknown, s, t) && Awaiting(t.tx, 12) && t.rx == r.rx && t.toTx == r.toTx
    ensures t.toRx == r.toRx + [Packet(false, FileData(0, B() + A()))]
  {
    hide At, Able, Awaiting, Serving, Tx.Recv, Tx.TickNak, Tx.RecvNak;
    var src := Source();
    AbleFacts(cfg, src);
    TimersLong(cfg, src);
    ServingFacts(r.tx, src);
    var a := Hear(cfg, src, Unknown, s, r, |r.toTx| - 1);
    HearsNak(cfg, r.tx, src, [Seg(0, 8)]);
    OneRequest(r.tx.(inactTimer := cfg.inactTicks));
    ReadsShort(cfg, a.tx);
    var b := Answer(cfg, src, Unknown, s, a, Short());
    OpenFacts(a.tx, src);
    ReadsWrong(cfg, b.tx);
    var c := Answer(cfg, src, Unknown, s, b, TxGood(cfg));
    t := ClearFlag(cfg, s, c);
    StillAwaiting(a.tx, t.tx);
  }

  lemma OpenFacts(st: Tx.Tx, src: seq<uint8>)
    requires Serving(st, src)
    ensures st.fdOpen && st.phase == Tx.S2
  {
  }

  // One more wakeup finds the list empty.
  lemma ClearFlag(cfg: Config, s: System, r: System) returns (t: System)
    requires Works(cfg) && cfg.chunkSize == 8 && At(cfg, Source(), Unknown, s, r) && r.tx.chunks == []
    requires r.tx.flags.fdNakPending
    ensures At(cfg, Source(), Unknown, s, t)
    ensures t == r.(tx := r.tx.(flags := r.tx.flags.(fdNakPending := false)))
  {
    hide At;
    t := Answer(cfg, Source(), Unknown, s, r, TxGood(cfg));
    assert r.toRx + [] == r.toRx;
  }

  lemma StillAwaiting(st: Tx.Tx, t: Tx.Tx)
    requires Serving(st, Source())
    requires t == st.(pos := 12, data := st.data.(cachedPos := 8), chunks := [],
             flags := st.flags.(fdNakPending := false))
    ensures Awaiting(t, 12)
  {
    hide WellFormed;
  }

  // The whole run: with the configuration able to deliver any file, one short read
  // among the requests, and nothing else failing, the receiver retains another file
  // than the source, reports it complete and retained, and the source is deleted.
  lemma ShortReadLosesFile(cfg: Config, s: System) returns (t: System)
    requires Able(cfg, Source()) && cfg.chunkSize == 8 && Initial(cfg, Source(), s) && Begins(cfg, Source(), s)
    requires Has(s.rx, [], []) && s.tx.chunks == [] && Tidy(s, Source())
    ensures Reaches(cfg, Source(), Unknown, s, t)
    ensures Through(t, Retained()) && Retained() != Source()
  {
    hide At, Able, Awaiting, Eofed, Checksum, Lacking, Waits, Initial, Begins;
    var src := Source();
    SameChecksum();
    AbleFacts(cfg, src);
    var a := HalfArrives(cfg, s);
    var b := WrongAnswer(cfg, s, a);
    NothingLacking(b.rx);
    var c := Retaining(cfg, src, Unknown, s, b);
    var d, k := Deleting(cfg, src, Unknown, s, c);
    t := Closing(cfg, src, Unknown, s, d, k);
    Reached(cfg, src, Unknown, s, t);
  }

  // The same from a freshly started sender and a freshly set up receiver, both with
  // empty lists.
  lemma FromTheStart(cfg: Config, cmdTx: bool, txCap: nat, rxCap: nat, srcLen: nat, dstLen: nat,
                     previous: Option<seq<uint8>>) returns (t: System)
    requires Able(cfg, Source()) && cfg.chunkSize == 8 && 0 < txCap && 1 < rxCap && srcLen < cfg.nameMax
    requires dstLen < cfg.nameMax
    ensures var s := Started(cfg, Source(), cmdTx, Handed(txCap, []), Handed(rxCap, []), srcLen, dstLen, previous);
            && Initial(cfg, Source(), s) && Reaches(cfg, Source(), Unknown, s, t)
            && Through(t, Retained()) && Retained() != Source()
  {
    hide Able, Reaches, Initial, Begins;
    AbleFacts(cfg, Source());
    StartBegins(cfg, Source(), cmdTx, Handed(txCap, []), Handed(rxCap, []), srcLen, dstLen, previous);
    t := ShortReadLosesFile(cfg,
      Started(cfg, Source(), cmdTx, Handed(txCap, []), Handed(rxCap, []), srcLen, dstLen, previous));
  }
}
