/**
 Why a receiver must not be handed a list that remembers bytes of the file: a run of
 both ends in which nothing fails, and the receiver retains another file than the
 source because its list was left over from an earlier one of the same size.
 */
module StaleLists {
  import opened Cfdp
  import opened Crc
  import opened ChunkSpec
  import opened Link
  import Gaps
  import NR = NakRepair
  import Rx = RxSpec
  import RR = RxRuns
  import Tx = TxSpec
  import opened EndToEnd
  import opened Reach
  import opened Transfer
  import opened Delivery
  import opened ShortReads

  // The two words at the front make up a multiple of 2^32.
  function Front(): seq<uint8> { [128, 0, 0, 0, 128, 0, 0, 0] }

  function File(): seq<uint8> { Front() + A() }

  function Other(): seq<uint8> { Zeros(8) + A() }

  function Left(cap: nat): Handed { Handed(cap, [Chunk(0, 12)]) }

  // What is left when a whole file was received.
  lemma WholeList(s: seq<Chunk>, n: nat)
    requires Separated(s) && NR.Within(s, n) && 0 < n && forall x :: 0 <= x < n ==> Covers(s, x)
    ensures s == [Chunk(0, n)]
  {
    assert Covers(s, 0);
    Gaps.CoversFromHead(s, 0);
    Gaps.CoversFromHead(s, s[0].End());
    if 1 < |s| {
      NR.Apart(s, 0, 1);
      NR.GapPositive(s, 1);
    }
  }

  lemma Sums()
    ensures Checksum(File()) == Checksum(Other()) && File() != Other() && |File()| == |Other()| == 12
  {
    hide Checksum;
    ChecksumOfWords();
    assert File()[0] == 128 && Other()[0] == Zeros(8)[0] == 0;
  }

  lemma ChecksumOfWords()
    ensures Checksum(Front() + A()) == 1 && Checksum(Zeros(8) + A()) == 1
  {
    hide Checksum;
    var top: seq<uint8>, zero: seq<uint8> := [128, 0, 0, 0], [0, 0, 0, 0];
    assert Front() == top + top;
    assert Zeros(8) == zero + zero;
    WordValue(top);
    WordValue(zero);
    WordValue(A());
    ThreeWords(top, top, A());
    ThreeWords(zero, zero, A());
  }

  lemma WordValue(d: seq<uint8>)
    requires |d| == 4
    ensures Word(d) == 0x100_0000 * (d[0] as int) + 0x1_0000 * (d[1] as int) + 0x100 * (d[2] as int) + d[3] as int
  {
    var c, b, a := d[..3], d[..2], d[..1];
    assert c[..2] == b && b[..1] == a && a[..0] == [];
    assert Value(a) == d[0];
    assert Value(b) == 256 * Value(a) + d[1];
    assert Value(c) == 256 * Value(b) + d[2];
    assert Value(d) == 256 * Value(c) + d[3];
  }

  lemma ThreeWords(a: seq<uint8>, b: seq<uint8>, c: seq<uint8>)
    requires |a| == |b| == |c| == 4
    ensures Checksum(a + b + c) == Add32(Add32(Add32(0, Word(a)), Word(b)), Word(c))
  {
    hide Word, Add32;
    assert [] + a == a && Checksum([]) == 0 by { NothingSums(); }
    ChecksumAppendWord([], a);
    ChecksumAppendWord(a, b);
    ChecksumAppendWord(a + b, c);
  }

  lemma NothingSums()
    ensures Checksum([]) == 0
  {
  }

  lemma TwoPdus()
    ensures DataOf(File(), 8, 0) == [Packet(false, FileData(0, Front())), Packet(false, FileData(8, A()))]
  {
    assert File()[0..8] == Front() && File()[8..12] == A();
    assert DataOf(File(), 8, 12) == [];
    assert DataOf(File(), 8, 8) == [Packet(false, FileData(8, File()[8..12]))];
  }

  // A range inside the only entry changes nothing.
  lemma Known(cap: nat)
    requires 0 < cap
    ensures Add(cap, [Chunk(0, 12)], Chunk(8, 4)) == [Chunk(0, 12)]
  {
    var s := [Chunk(0, 12)];
    forall x | Chunk(8, 4).Has(x) ensures Covers(s, x) {
      assert s[0].Has(x);
    }
    MergeOfCoveredIsIdentity(s, Chunk(8, 4));
  }

  // What the receiver has after the first pass, of which the first data PDU is lost.
  lemma SecondOnly(cfg: Config, st: Rx.Rx, tx: Tx.Tx)
    requires cfg.chunkSize == 8 && 0 < st.cap && Blank(st) && !st.flags.mdRecv && 0 < cfg.ackLimit
    requires tx.srcLen < cfg.nameMax && tx.dstLen < cfg.nameMax && Has(st, [Chunk(0, 12)], [])
    requires |DataOf(File(), 8, 0)| == 2 && AllAcceptable(FirstPass(cfg, File(), tx, [1]))
    ensures var t := RR.Arrivals(cfg, st, FirstPass(cfg, File(), tx, [1]), RxGood(12));
            t.chunks == [Chunk(0, 12)] && t.disk.temp == Other()
  {
    hide Rx.Recv, WriteAt, Add, Checksum, RR.Arrivals, Blank, Sized, Has, DataOf, Picked;
    var src, env := File(), RxGood(12);
    var md, data, eof := MdOf(src, tx.com.closeReq, tx.srcLen, tx.dstLen), Packet(false, FileData(8, A())), EofOf(src);
    TwoPdus();
    assert FirstPass(cfg, src, tx, [1]) == [md, data, eof] by { PickSecond(); }
    var a := Rx.Recv(cfg, st, md, env);
    BlankFacts(st);
    TakesMetadata(cfg, st, src, tx.com.closeReq, tx.srcLen, tx.dstLen, env);
    MetadataLeaves(cfg, st, src, tx.com.closeReq, tx.srcLen, tx.dstLen, env);
    SizedFacts(a, src);
    HasFacts(a, [Chunk(0, 12)], []);
    var b := Rx.Recv(cfg, a, data, env);
    TakesData(cfg, a, src, 8, A(), env);
    DataWrites(cfg, a, 8, A(), env);
    Known(a.cap);
    Writes();
    HasFacts(b, [Chunk(0, 12)], Other());
    EofLeaves(cfg, b, src, env);
    HasFacts(Rx.Recv(cfg, b, eof, env), [Chunk(0, 12)], Other());
    ThreeArrivals(cfg, st, md, data, eof, env);
  }

  lemma PickSecond()
    requires |DataOf(File(), 8, 0)| == 2
    ensures Picked(File(), 8, [1]) == [DataOf(File(), 8, 0)[1]]
  {
    assert [1][1..] == [];
    assert Picked(File(), 8, []) == [];
  }

  lemma BlankFacts(st: Rx.Rx)
    requires Blank(st) && Has(st, [Chunk(0, 12)], [])
    ensures st.disk.pos == st.data.cachedPos && st.chunks == [Chunk(0, 12)] && st.disk.temp == []
  {
  }

  lemma HasFacts(st: Rx.Rx, chunks: seq<Chunk>, temp: seq<uint8>)
    requires Has(st, chunks, temp)
    ensures st.chunks == chunks && st.disk.temp == temp && st.disk.pos == st.data.cachedPos
  {
  }

  lemma ThreeArrivals(cfg: Config, st: Rx.Rx, p: Packet, q: Packet, r: Packet, env: Rx.Env)
    requires 0 < st.cap && Rx.Acceptable(p.pdu) && Rx.Acceptable(q.pdu) && Rx.Acceptable(r.pdu)
    ensures var a := Rx.Recv(cfg, st, p, env);
            && 0 < a.cap
            && var b := Rx.Recv(cfg, a, q, env);
               0 < b.cap && RR.Arrivals(cfg, st, [p, q, r], env) == Rx.Recv(cfg, b, r, env)
  {
    hide Rx.Recv, Add;
    RR.RecvHandles(cfg, st, p, env);
    var a := Rx.Recv(cfg, st, p, env);
    RR.RecvHandles(cfg, a, q, env);
    var b := Rx.Recv(cfg, a, q, env);
    RR.RecvHandles(cfg, b, r, env);
    assert [p, q, r][1..] == [q, r] && [q, r][1..] == [r] && [r][1..] == [];
    assert RR.Arrivals(cfg, b, [r], env) == RR.Arrivals(cfg, Rx.Recv(cfg, b, r, env), [], env);
  }

  // The whole run. The list of the receiver is what an earlier file of the same size
  // leaves (WholeList); no read, no write and no buffer fails. The first data PDU is
  // lost, and the source is deleted all the same.
  lemma StaleListLosesFile(cfg: Config, cmdTx: bool, txList: Handed, rxCap: nat, srcLen: nat, dstLen: nat,
                           previous: Option<seq<uint8>>) returns (t: System)
    requires Able(cfg, File()) && cfg.chunkSize == 8 && 1 < rxCap && srcLen < cfg.nameMax && dstLen < cfg.nameMax
    requires txList.Proper() && NR.Within(txList.chunks, 12)
    ensures var s := Started(cfg, File(), cmdTx, txList, Left(rxCap), srcLen, dstLen, previous);
            && Initial(cfg, File(), s) && Reaches(cfg, File(), Sound(Remembered(Left(rxCap).chunks)), s, t)
            && Through(t, Other()) && Other() != File()
  {
    hide Able, Reaches, Initial, Begins, Tidy, Lacking, Checksum, RR.Arrivals, Right, FirstPass, DataOf;
    var src := File();
    Sums();
    AbleFacts(cfg, src);
    assert Left(rxCap).Proper();
    assert NR.Within(Left(rxCap).chunks, 12);
    StartBegins(cfg, src, cmdTx, txList, Left(rxCap), srcLen, dstLen, previous);
    var s := Started(cfg, src, cmdTx, txList, Left(rxCap), srcLen, dstLen, previous);
    TwoPdus();
    var c := Sound(Remembered(s.rx.chunks));
    var u, v, end := Delivers(cfg, src, s, [1]);
    BeginsFacts(cfg, src, s);
    SecondOnly(cfg, s.rx, s.tx);
    NothingLacking(u.rx);
    Joined(cfg, src, c, s, u, v);
    Joined(cfg, src, c, s, v, end);
    t := end;
  }

  lemma BeginsFacts(cfg: Config, src: seq<uint8>, s: System)
    requires Begins(cfg, src, s)
    ensures Blank(s.rx) && !s.rx.flags.mdRecv && s.tx.srcLen < cfg.nameMax && s.tx.dstLen < cfg.nameMax
  {
  }
}
