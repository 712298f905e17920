/** The receiver's files over every step, when everything that arrives comes from one unchanging source file. */
module RxFile {
  import opened Cfdp
  import opened Crc
  import opened ChunkSpec
  import Gaps
  import opened Link
  import NR = NakRepair
  import opened RxSpec
  import opened RxRuns

  // ---------- the invariant ----------

  // The temporary file while it is being built: right on every remembered byte that
  // was not remembered from the start, and everywhere else too once the transaction is
  // complete.
  ghost predicate Building(st: Rx, src: seq<uint8>, known: iset<int>) {
    && |st.disk.temp| <= |src|
    && (forall x :: Covers(st.chunks, x) && 0 <= x < |src| && x !in known ==> Agrees(st.disk.temp, src, x))
    && (st.com.isComplete ==> Right(st.disk.temp, src, known))
    && (st.Ok() && st.disk.fdOpen ==> st.disk.pos == st.data.cachedPos)
  }

  ghost predicate Remembers(st: Rx, src: seq<uint8>) { 0 < st.cap && WellFormed(st.cap, st.chunks) && |src| <= U32_MAX }

  // Without an EOF that is free of errors nothing is ever complete.
  ghost predicate Fruitless(st: Rx) {
    !st.com.isComplete && st.data.finFs != FS_RETAINED && (st.flags.eofCount != 0 ==> !st.Ok())
  }

  ghost predicate Faithful(st: Rx, next: Sub, src: seq<uint8>, c: Course) {
    && Remembers(st, src)
    && (st.flags.mdRecv ==> st.fsize == |src|)
    && (st.data.finFs != FS_UNREPORTED && st.data.finFs <= FS_INVALID)
    && (c.Sound? ==>
          && (st.data.finFs == FS_RETAINED ==> Kept(c, src, st.disk.retained))
          && (next.Rank() < 4 ==> Building(st, src, c.known)))
    && (c.Barren? ==> Fruitless(st))
  }

  // In a sound run a file under the final name is the older one or a right one.
  ghost predicate SameOrSource(st: Rx, t: Rx, src: seq<uint8>, c: Course) {
    c.Sound? ==> t.disk.retained == st.disk.retained || Kept(c, src, t.disk.retained)
  }

  // ---------- writing ----------

  lemma WriteAgrees(temp: seq<uint8>, src: seq<uint8>, at: nat, d: seq<uint8>)
    requires |temp| <= |src| && at + |d| <= |src| && d == src[at..at + |d|]
    ensures var w := WriteAt(temp, at, d);
            && |w| <= |src|
            && (forall x :: Agrees(temp, src, x) || at <= x < at + |d| ==> Agrees(w, src, x))
  {
    if d != [] {
      var w := WriteAt(temp, at, d);
      var base := if |temp| < at then temp + Zeros(at - |temp|) else temp;
      forall x | Agrees(temp, src, x) || at <= x < at + |d| ensures Agrees(w, src, x) {
        if at <= x < at + |d| {
          assert w[x] == d[x - at] == src[x];
        } else if x < at {
          assert w[x] == base[x] == temp[x];
        } else {
          assert w[x] == base[x] == temp[x];
        }
      }
    }
  }

  lemma ProcessFdFaithful(st: Rx, src: seq<uint8>, off: nat, d: seq<uint8>, env: Env, c: Course)
    requires Faithful(st, st.data.sub, src, c) && Genuine(FileData(off, d), src, c) && st.Ok()
    requires Addable(Chunk(off, |d|))
    ensures var t := ProcessFd(st, off, d, env);
            Faithful(t, t.data.sub, src, c) && t.disk.retained == st.disk.retained
  {
    hide Add, WriteAt, Separated, Covers, Agrees, Total;
    AddWithin(st, src, Chunk(off, |d|));
    if !c.Sound? {
    } else if st.data.sub.Rank() < 4 && st.disk.fdOpen {
      var n := Min(env.written, |d|);
      assert d[..n] == src[off..off + n];
      WriteAgrees(st.disk.temp, src, off, d[..n]);
      WriteBuilds(st, src, off, d, env, c);
    } else {
      assert d[..0] == [];
      NothingWritten(st.disk.temp, if st.data.cachedPos != off then off else st.disk.pos);
    }
  }

  lemma NothingWritten(temp: seq<uint8>, at: nat)
    ensures WriteAt(temp, at, []) == temp
  {
  }

  lemma AddWithin(st: Rx, src: seq<uint8>, c: Chunk)
    requires Remembers(st, src) && Addable(c)
    ensures Remembers(st.(chunks := Add(st.cap, st.chunks, c)), src)
    ensures forall x :: Covers(Add(st.cap, st.chunks, c), x) ==> Covers(st.chunks, x) || c.Has(x)
  {
    hide Add, Separated, Classify;
    AddKeepsInvariant(st.cap, st.chunks, c);
  }

  lemma WriteBuilds(st: Rx, src: seq<uint8>, off: nat, d: seq<uint8>, env: Env, c: Course)
    requires c.Sound? && 0 < st.cap && Building(st, src, c.known) && Genuine(FileData(off, d), src, c)
    requires st.Ok() && st.disk.fdOpen
    requires var n := Min(env.written, |d|);
             var w := WriteAt(st.disk.temp, off, d[..n]);
             && |w| <= |src|
             && (forall x :: Agrees(st.disk.temp, src, x) || off <= x < off + n ==> Agrees(w, src, x))
    requires forall x :: Covers(Add(st.cap, st.chunks, Chunk(off, |d|)), x) ==>
               Covers(st.chunks, x) || Chunk(off, |d|).Has(x)
    ensures Building(ProcessFd(st, off, d, env), src, c.known)
  {
    hide Add, WriteAt, Covers, Agrees;
  }

  // ---------- arrivals ----------

  // What a step may change without touching the files.
  ghost predicate Untouched(st: Rx, t: Rx, src: seq<uint8>, c: Course) {
    && t.cap == st.cap && t.chunks == st.chunks && t.disk == st.disk
    && t.data.cachedPos == st.data.cachedPos && t.data.finFs == st.data.finFs
    && t.com.isComplete == st.com.isComplete
    && (t.Ok() ==> st.Ok())
    && (t.flags.mdRecv ==> t.fsize == |src| || (st.flags.mdRecv && t.fsize == st.fsize))
    && (c.Barren? && t.flags.eofCount != 0 && t.Ok() ==> st.flags.eofCount != 0)
  }

  lemma UntouchedFaithful(st: Rx, t: Rx, next: Sub, src: seq<uint8>, c: Course)
    requires Faithful(st, next, src, c) && Untouched(st, t, src, c)
    ensures Faithful(t, next, src, c)
  {
    hide WellFormed, Covers, Agrees;
  }

  lemma HandleUntouched(cfg: Config, st: Rx, p: Pdu, env: Env, src: seq<uint8>, c: Course)
    requires 0 < st.cap && Acceptable(p) && Genuine(p, src, c) && !(p.FileData? && st.Ok())
    ensures Untouched(st, Handle(cfg, st, p, env), src, c) && Handle(cfg, st, p, env).data.sub == st.data.sub
  {
    hide ProcessFd, Add;
  }

  lemma ArriveFaithful(cfg: Config, st: Rx, pkt: Packet, env: Env, src: seq<uint8>, c: Course)
    requires 0 < st.cap && Faithful(st, st.data.sub, src, c) && Genuine(pkt.pdu, src, c) && Acceptable(pkt.pdu)
    ensures var t := Recv(cfg, st, pkt, env);
            Faithful(t, t.data.sub, src, c) && t.disk.retained == st.disk.retained
  {
    hide Handle, ProcessFd, Faithful, Untouched;
    var t := Dispatch(cfg, st, pkt, env);
    if pkt.unacknowledged != st.reliable && st.phase != Hold {
      var a := Handle(cfg, st, pkt.pdu, env);
      HandleFaithful(cfg, st, pkt.pdu, env, src, c);
      ArmFaithful(cfg, a, src, c);
    } else {
      HoldUntouched(cfg, st, pkt, env, src, c);
      UntouchedFaithful(st, t, st.data.sub, src, c);
    }
    ArmFaithful(cfg, t, src, c);
  }

  lemma HandleFaithful(cfg: Config, st: Rx, p: Pdu, env: Env, src: seq<uint8>, c: Course)
    requires 0 < st.cap && Faithful(st, st.data.sub, src, c) && Genuine(p, src, c) && Acceptable(p)
    ensures var t := Handle(cfg, st, p, env);
            Faithful(t, t.data.sub, src, c) && t.disk.retained == st.disk.retained
  {
    if p.FileData? && st.Ok() {
      ProcessFdFaithful(st, src, p.offset, p.data, env, c);
      hide ProcessFd, Faithful;
    } else {
      HandleUntouched(cfg, st, p, env, src, c);
      hide Handle, Faithful;
      UntouchedFaithful(st, Handle(cfg, st, p, env), st.data.sub, src, c);
    }
  }

  lemma HoldUntouched(cfg: Config, st: Rx, pkt: Packet, env: Env, src: seq<uint8>, c: Course)
    requires 0 < st.cap && Acceptable(pkt.pdu) && Genuine(pkt.pdu, src, c)
    requires pkt.unacknowledged == st.reliable || st.phase == Hold
    ensures var t := Dispatch(cfg, st, pkt, env);
            Untouched(st, t, src, c) && t.data.sub == st.data.sub
  {
    hide Handle;
  }

  lemma ArmFaithful(cfg: Config, st: Rx, src: seq<uint8>, c: Course)
    ensures Faithful(st, st.data.sub, src, c) ==>
              && Faithful(ArmAck(cfg, st), st.data.sub, src, c) && Faithful(ArmInact(cfg, st), st.data.sub, src, c)
  {
    hide WellFormed, Covers, Agrees;
  }

  // ---------- wakeups ----------

  // Reading moves both positions alike, or fails.
  lemma {:induction false} CrcLoopInStep(cfg: Config, fsize: nat, temp: seq<uint8>, run: CrcRun, count: nat,
                                         okReads: nat)
    requires 0 < cfg.crcBlock && run.success
    ensures var r := CrcLoop(cfg, fsize, temp, run, count, okReads);
            r.success ==> r.pos - r.cachedPos == run.pos - run.cachedPos
    decreases fsize - run.cachedPos
  {
    hide Digest;
    if count < cfg.crcRate && run.cachedPos < fsize {
      var n := Min(cfg.crcBlock, fsize - run.cachedPos);
      if okReads != 0 && run.pos + n <= |temp| {
        CrcLoopInStep(cfg, fsize, temp,
                      CrcRun(run.cachedPos + n, run.pos + n, Digest(run.crc, temp[run.pos..run.pos + n]), true),
                      count + n, okReads - 1);
      }
    }
  }

  lemma CalcCrcChunkFaithful(cfg: Config, st: Rx, next: Sub, env: Env, src: seq<uint8>, c: Course)
    requires Faithful(st, next, src, c) && 0 < cfg.crcBlock
    ensures Faithful(CalcCrcChunk(cfg, st, env), next, src, c)
  {
    hide CrcLoop, WellFormed, Covers, Agrees;
    var okReads := if st.disk.fdOpen then env.okReads else 0;
    CrcLoopInStep(cfg, st.fsize, st.disk.temp, CrcRun(st.data.cachedPos, st.disk.pos, st.crc, true), 0, okReads);
  }

  lemma RetentionFaithful(st: Rx, env: Env, src: seq<uint8>, c: Course)
    requires Faithful(st, FileStore, src, c)
    ensures var t := HandleFileRetention(st, env);
            Faithful(t, FinAck, src, c) && Faithful(t, Complete, src, c) && SameOrSource(st, t, src, c)
  {
    hide WellFormed, Covers, Agrees;
  }

  // The gaps of a complete file are none, so every byte is remembered, and right if it
  // was not remembered from the start.
  lemma CompleteIsSource(st: Rx, src: seq<uint8>, known: iset<int>)
    requires Faithful(st, DataEof, src, Sound(known)) && CheckComplete(st)
    ensures Right(st.disk.temp, src, known)
  {
    Gaps.ReportsIffMissing(st.chunks, 1, st.fsize, 0);
    hide WellFormed, Gaps.Reported, Covers;
    forall x | 0 <= x < |src| && x !in known ensures Agrees(st.disk.temp, src, x) {
      assert Covers(st.chunks, x);
    }
  }

  lemma DataEofFaithful(cfg: Config, st: Rx, src: seq<uint8>, c: Course)
    requires Faithful(st, DataEof, src, c)
    ensures var (t, next) := CheckDataEof(cfg, st);
            Faithful(t, next, src, c) && t.disk.retained == st.disk.retained
  {
    if c.Sound? && CheckComplete(st) {
      CompleteIsSource(st, src, c.known);
    }
    hide WellFormed, Covers, Agrees, Gaps.Reported;
  }

  lemma CheckFaithful(cfg: Config, st: Rx, env: Env, src: seq<uint8>, c: Course)
    requires Faithful(st, st.data.sub, src, c) && 0 < cfg.crcBlock
    ensures var (t, next) := Check(cfg, st, env);
            Faithful(t, next, src, c) && SameOrSource(st, t, src, c)
  {
    match st.data.sub {
      case DataEof =>
        DataEofFaithful(cfg, st, src, c);
        hide CheckDataEof, Faithful;
      case Validate =>
        CalcCrcChunkFaithful(cfg, st, Validate, env, src, c);
        hide CalcCrcChunk, WellFormed, Covers, Agrees;
        assert CalcCrcChunk(cfg, st, env).disk.retained == st.disk.retained by { KeepsRetained(cfg, st, env); }
      case FileStore =>
        RetentionFaithful(st, env, src, c);
        hide HandleFileRetention, Faithful;
      case _ =>
        hide WellFormed, Covers, Agrees;
    }
  }

  lemma KeepsRetained(cfg: Config, st: Rx, env: Env)
    requires 0 < cfg.crcBlock
    ensures CalcCrcChunk(cfg, st, env).disk.retained == st.disk.retained
  {
  }

  lemma EnterFaithful(cfg: Config, st: Rx, next: Sub, env: Env, src: seq<uint8>, c: Course)
    requires Faithful(st, next, src, c)
    ensures var t := Enter(cfg, st, next, env);
            Faithful(t, next, src, c) && t.data.sub == next && t.disk.retained == st.disk.retained
  {
    hide WellFormed, Covers, Agrees;
  }

  lemma CheckStateFaithful(cfg: Config, st: Rx, env: Env, src: seq<uint8>, c: Course)
    requires Faithful(st, st.data.sub, src, c) && 0 < cfg.crcBlock
    ensures var t := CheckState(cfg, st, env);
            Faithful(t, t.data.sub, src, c) && SameOrSource(st, t, src, c)
  {
    hide Check, Enter, Faithful;
    assert Separated(st.chunks) by { HasList(st, src, c); }
    var (a, next) := Check(cfg, st, env);
    CheckFaithful(cfg, st, env, src, c);
    CheckAdvances(cfg, st, env);
    if next != st.data.sub {
      EnterFaithful(cfg, a, next, env, src, c);
    }
  }

  lemma HasList(st: Rx, src: seq<uint8>, c: Course)
    requires Faithful(st, st.data.sub, src, c)
    ensures 0 < st.cap && WellFormed(st.cap, st.chunks) && Separated(st.chunks) && |src| <= U32_MAX
  {
  }

  lemma TimersUntouched(st: Rx, src: seq<uint8>, c: Course)
    ensures Untouched(st, InactivityTick(st), src, c) && Untouched(st, AckTimerTick(InactivityTick(st)), src, c)
  {
  }

  lemma QuietFaithful(st: Rx, t: Rx, next: Sub, src: seq<uint8>, c: Course)
    requires Faithful(st, next, src, c) && Quiet(st, t)
    ensures Faithful(t, next, src, c)
  {
    hide WellFormed, Covers, Agrees;
  }

  // The packet of a wakeup, sent in the state the check left behind.
  lemma SentHonest(cfg: Config, st: Rx, bufOk: bool, src: seq<uint8>, c: Course, p: Packet)
    requires Faithful(st, st.data.sub, src, c) && 0 < cfg.maxSegments
    requires p in Maintain(cfg, st, bufOk).1
    ensures Honest(p.pdu, Kept(c, src, st.disk.retained))
  {
    hide WellFormed, Covers, Agrees, NakGaps, NakSegs;
    if st.flags.mdRecv && p.pdu.Nak? {
      NakHonest(cfg, st, src);
    }
  }

  lemma NakHonest(cfg: Config, st: Rx, src: seq<uint8>)
    requires Remembers(st, src) && st.fsize == |src|
    ensures Honest(Nak(NakSegs(cfg, st.cap, st.chunks, st.fsize)), false)
  {
    hide Gaps.Reported, Separated;
    var max := if |st.chunks| < st.cap then st.cap else st.cap - 1;
    NR.ReportedPositive(st.chunks, max, st.fsize);
    Gaps.ReportedBelow(st.chunks, max, st.fsize, 0, U32_MAX);
  }

  lemma TickFaithful(cfg: Config, st: Rx, env: Env, src: seq<uint8>, c: Course)
    requires Faithful(st, st.data.sub, src, c) && 0 < cfg.crcBlock && 0 < cfg.maxSegments
    ensures var r := Tick(cfg, st, env);
            && Faithful(r.rx, r.rx.data.sub, src, c) && SameOrSource(st, r.rx, src, c)
            && forall p :: p in r.sent ==> Honest(p.pdu, Kept(c, src, r.rx.disk.retained))
  {
    hide CheckState, Maintain, InactivityTick, AckTimerTick, Faithful, Honest, Untouched;
    HasList(st, src, c);
    var a := InactivityTick(st);
    TimersTimed(st);
    TimersUntouched(st, src, c);
    UntouchedFaithful(st, a, st.data.sub, src, c);
    UntouchedFaithful(st, AckTimerTick(a), st.data.sub, src, c);
    if st.Active() {
      CheckStateFaithful(cfg, AckTimerTick(a), env, src, c);
    }
    var b := TickState(cfg, st, env);
    MaintainQuiet(cfg, b, env.bufOk);
    QuietFaithful(b, Tick(cfg, st, env).rx, b.data.sub, src, c);
    forall p | p in Maintain(cfg, b, env.bufOk).1 ensures Honest(p.pdu, Kept(c, src, b.disk.retained)) {
      SentHonest(cfg, b, env.bufOk, src, c, p);
    }
  }

  // ---------- the other steps ----------

  lemma OtherFaithful(cfg: Config, st: Rx, src: seq<uint8>, c: Course)
    requires Faithful(st, st.data.sub, src, c)
    ensures Faithful(Cancel(st), st.data.sub, src, c) && Faithful(Finish(cfg, st), st.data.sub, src, c)
  {
    hide WellFormed, Covers, Agrees;
  }

  // A restart, with any list whose bytes are reckoned with.
  lemma SetupFaithful(cfg: Config, unack: bool, list: Option<Handed>, stale: Status, createOk: bool,
                      retained: Option<seq<uint8>>, src: seq<uint8>, c: Course)
    requires Usable(list) && |src| <= U32_MAX
    requires c.Sound? ==> forall x :: Covers(Got(list).chunks, x) ==> x in c.known
    ensures var t := Setup(cfg, unack, list, stale, createOk, retained);
            Faithful(t, t.data.sub, src, c) && t.disk.retained == retained
  {
    hide WellFormed, Covers;
    GotProper(list);
  }
}
