/**
 The phases of a transfer as runs of both ends: everything is sent once, some of it
 arrives, and round after round the receiver asks for the rest and gets it.
 */
module Transfer {
  import opened Cfdp
  import opened Crc
  import opened ChunkSpec
  import opened Link
  import Gaps
  import NR = NakRepair
  import Rx = RxSpec
  import RR = RxRuns
  import RC = RxChecksum
  import Tx = TxSpec
  import TR = TxReads
  import TxRuns
  import opened EndToEnd
  import opened Reach

  // Wakeups a receiver needs between two packets at most.
  function Patience(cfg: Config, size: nat): nat
    requires 0 < cfg.crcRate
  {
    cfg.ackTicks + RC.CeilDiv(size, cfg.crcRate) + 10
  }

  // Retries are allowed, and the timers are long enough for the checksum and a NAK.
  ghost predicate Able(cfg: Config, src: seq<uint8>) {
    && ValidConfig(cfg) && Works(cfg) && |src| <= U32_MAX
    && 0 < cfg.ackLimit && Patience(cfg, |src|) + 2 <= cfg.inactTicks
  }

  function TxGood(cfg: Config): Tx.Env { Tx.Env(true, cfg.chunkSize, true, cfg.chunkSize, false, false, true) }

  function RxGood(n: nat): Rx.Env { Rx.Env(true, n, n, true, true) }

  // ---------- the sender sends everything once ----------

  ghost predicate Sender(st: Tx.Tx, n: nat, k: nat) {
    && st.phase == Tx.S2 && st.reliable && !st.keep && st.Ok() && st.fsize == n && st.fdOpen && st.source == Tx.InPlace
    && !st.com.inactFired && k <= st.inactTimer && 0 < st.cap
  }

  // `at` bytes are sent.
  ghost predicate Feeding(st: Tx.Tx, src: seq<uint8>, at: nat) {
    && Sender(st, |src|, 8) && st.data.sub == Tx.DataNormal && st.foffs == at <= |src|
    && st.crc == Digest(START, src[..at]) && st.flags.finCount == 0 && st.flags.finAckCount == 0
    && !st.flags.eofAckRecv && !st.flags.sendEof && !st.com.ackArmed && TR.Positioned(st)
  }

  ghost predicate Awaiting(st: Tx.Tx, n: nat) {
    && Sender(st, n, 5) && st.data.sub == Tx.DataEof && !st.flags.sendEof && !st.flags.sendMd
    && st.flags.finCount == 0 && st.flags.finAckCount == 0
  }

  function MdOf(src: seq<uint8>, closeReq: bool, srcLen: nat, dstLen: nat): Packet {
    Packet(false, Metadata(closeReq, |src|, srcLen, dstLen))
  }

  function EofOf(src: seq<uint8>): Packet { Packet(false, Eof(0, Checksum(src), |src|)) }

  // The data PDUs of a file from `at` on.
  function DataOf(src: seq<uint8>, chunk: nat, at: nat): seq<Packet>
    requires 0 < chunk && at <= |src|
    decreases |src| - at
  {
    if at == |src| then []
    else
      var n := Min(chunk, |src| - at);
      [Packet(false, FileData(at, src[at..at + n]))] + DataOf(src, chunk, at + n)
  }

  lemma {:induction false} DataGenuine(src: seq<uint8>, chunk: nat, at: nat, k: nat)
    requires 0 < chunk && at <= |src| && k < |DataOf(src, chunk, at)|
    ensures var p := DataOf(src, chunk, at)[k];
            !p.unacknowledged && p.pdu.FileData? && Genuine(p.pdu, src, Sound(iset{}))
    decreases k
  {
    if 0 < k {
      DataGenuine(src, chunk, at + Min(chunk, |src| - at), k - 1);
    }
  }

  lemma SendsMetadata(cfg: Config, st: Tx.Tx, src: seq<uint8>)
    requires src != [] && Feeding(st, src, 0) && st.flags.sendMd
    ensures var r := Tx.Tick(cfg, st, TxGood(cfg));
            && Feeding(r.tx, src, 0) && !r.tx.flags.sendMd
            && r.sent == [MdOf(src, st.com.closeReq, st.srcLen, st.dstLen)]
  {
    hide Digest;
  }

  lemma SendsBlock(cfg: Config, st: Tx.Tx, src: seq<uint8>, at: nat)
    requires 0 < cfg.chunkSize && Feeding(st, src, at) && at < |src| && !st.flags.sendMd
    ensures var (t, sent) := Tx.SendNewData(cfg, st, src, TxGood(cfg));
            var n := Min(cfg.chunkSize, |src| - at);
            && Feeding(t, src, at + n) && !t.flags.sendMd
            && sent == [Packet(false, FileData(at, src[at..at + n]))]
  {
    hide Digest;
    TR.SendDigests(cfg, st, src, TxGood(cfg));
  }

  lemma SendsEof(cfg: Config, st: Tx.Tx, src: seq<uint8>)
    requires Feeding(st, src, |src|) && !st.flags.sendMd
    ensures var r := Tx.Tick(cfg, st, TxGood(cfg));
            Awaiting(r.tx, |src|) && !r.tx.flags.eofAckRecv && r.sent == [EofOf(src)] && TR.Positioned(r.tx)
  {
    hide Digest, Checksum, Finalize;
    assert src[..|src|] == src;
    WholeChecksum(src);
  }

  // The EOF of an empty file is due at once, but the metadata go first.
  ghost predicate EofDue(st: Tx.Tx, src: seq<uint8>) {
    && Sender(st, |src|, 7) && st.data.sub == Tx.DataEof && st.crc.result == Checksum(src) && st.flags.sendEof
    && st.flags.finCount == 0 && st.flags.finAckCount == 0 && !st.flags.eofAckRecv && !st.flags.sendMd
    && !st.com.ackArmed
    && TR.Positioned(st)
  }

  lemma EmptyFirst(cfg: Config, st: Tx.Tx, src: seq<uint8>)
    requires src == [] && Feeding(st, src, 0) && st.flags.sendMd
    ensures var r := Tx.Tick(cfg, st, TxGood(cfg));
            EofDue(r.tx, src) && r.sent == [MdOf(src, st.com.closeReq, st.srcLen, st.dstLen)]
  {
    hide Digest, Checksum, Finalize;
    assert src[..0] == [];
    WholeChecksum(src);
  }

  lemma EmptySecond(cfg: Config, st: Tx.Tx, src: seq<uint8>)
    requires EofDue(st, src)
    ensures var r := Tx.Tick(cfg, st, TxGood(cfg));
            Awaiting(r.tx, |src|) && !r.tx.flags.eofAckRecv && r.sent == [EofOf(src)] && TR.Positioned(r.tx)
  {
    hide Checksum;
  }

  lemma {:induction false} SendingData(cfg: Config, src: seq<uint8>, c: Course, s: System, r: System, at: nat)
    returns (t: System)
    requires Works(cfg) && At(cfg, src, c, s, r) && Feeding(r.tx, src, at) && !r.tx.flags.sendMd
    ensures At(cfg, src, c, s, t) && Feeding(t.tx, src, |src|) && !t.tx.flags.sendMd
    ensures at <= |src| && t == r.(tx := t.tx, toRx := r.toRx + DataOf(src, cfg.chunkSize, at))
    ensures t.tx.chunks == r.tx.chunks
    decreases |src| - at
  {
    hide At, Tx.SendNewData;
    if at == |src| {
      t := r;
    } else {
      hide Feeding;
      assert Feeding(r.tx, src, at) && at < |src|;
      SendsBlock(cfg, r.tx, src, at);
      TxRuns.NewDataFeeds(cfg, r.tx, src, TxGood(cfg));
      var a := Feed(cfg, src, c, s, r, TxGood(cfg));
      t := SendingData(cfg, src, c, s, a, at + Min(cfg.chunkSize, |src| - at));
    }
  }

  // A sender that has just started.
  ghost predicate Fresh(st: Tx.Tx, src: seq<uint8>) { Feeding(st, src, 0) && st.flags.sendMd }

  // All packets of the first pass.
  function Pass(cfg: Config, src: seq<uint8>, st: Tx.Tx): seq<Packet>
    requires 0 < cfg.chunkSize
  {
    [MdOf(src, st.com.closeReq, st.srcLen, st.dstLen)] + DataOf(src, cfg.chunkSize, 0) + [EofOf(src)]
  }

  lemma Sending(cfg: Config, src: seq<uint8>, c: Course, s: System) returns (t: System)
    requires Works(cfg) && At(cfg, src, c, s, s) && Fresh(s.tx, src) && s.toRx == []
    ensures At(cfg, src, c, s, t) && Awaiting(t.tx, |src|) && !t.tx.flags.eofAckRecv && TR.Positioned(t.tx)
    ensures t == s.(tx := t.tx, toRx := Pass(cfg, src, s.tx)) && t.tx.chunks == s.tx.chunks
  {
    hide At, Tx.Tick, Feeding, Awaiting, EofDue, Checksum, DataOf;
    var env := TxGood(cfg);
    if src == [] {
      EmptyFirst(cfg, s.tx, src);
      var a := WakeTx(cfg, src, c, s, s, env);
      EmptySecond(cfg, a.tx, src);
      TxRuns.TickWakes(cfg, s.tx, env);
      TxRuns.TickWakes(cfg, a.tx, env);
      t := WakeTx(cfg, src, c, s, a, env);
      NoData(src, cfg.chunkSize);
    } else {
      SendsMetadata(cfg, s.tx, src);
      var a := WakeTx(cfg, src, c, s, s, env);
      var b := SendingData(cfg, src, c, s, a, 0);
      SendsEof(cfg, b.tx, src);
      TxRuns.TickWakes(cfg, s.tx, env);
      TxRuns.TickWakes(cfg, b.tx, env);
      t := WakeTx(cfg, src, c, s, b, env);
    }
  }

  lemma NoData(src: seq<uint8>, chunk: nat)
    requires src == [] && 0 < chunk
    ensures DataOf(src, chunk, 0) == []
  {
  }

  // ---------- the receiver takes some of it ----------

  ghost predicate Receiver(st: Rx.Rx, k: nat) {
    && st.phase == Rx.R2 && st.reliable && st.Ok() && st.disk.fdOpen && st.flags.tempCreated && !st.com.inactFired
    && k <= st.inactTimer && 1 < st.cap && !st.flags.sendFin
  }

  ghost predicate Blank(st: Rx.Rx) {
    && Receiver(st, 0) && st.data.sub == Rx.DataNormal && st.flags.eofCount == 0 && st.flags.eofAckCount == 0
    && !st.flags.sendNak && !st.com.ackArmed
  }

  // The metadata are in.
  ghost predicate Sized(st: Rx.Rx, src: seq<uint8>) { Blank(st) && st.flags.mdRecv && st.fsize == |src| }

  lemma TakesMetadata(cfg: Config, st: Rx.Rx, src: seq<uint8>, closeReq: bool, srcLen: nat, dstLen: nat, env: Rx.Env)
    requires Blank(st) && !st.flags.mdRecv && 0 < st.cap && srcLen < cfg.nameMax && dstLen < cfg.nameMax
    ensures Sized(Rx.Recv(cfg, st, MdOf(src, closeReq, srcLen, dstLen), env), src)
  {
  }

  lemma TakesData(cfg: Config, st: Rx.Rx, src: seq<uint8>, off: nat, data: seq<uint8>, env: Rx.Env)
    requires Sized(st, src) && 0 < st.cap && Rx.Acceptable(FileData(off, data)) && env.seekOk && |data| <= env.written
    ensures var t := Rx.Recv(cfg, st, Packet(false, FileData(off, data)), env);
            Sized(t, src) && t.chunks == Add(st.cap, st.chunks, Chunk(off, |data|)) && t.cap == st.cap
  {
    hide Add, WriteAt;
  }

  // The EOF is in, and was acknowledged.
  ghost predicate Eofed(st: Rx.Rx, src: seq<uint8>, k: nat) {
    && Receiver(st, k) && st.flags.mdRecv && st.fsize == |src| && st.flags.eofCount == 1
    && st.data.eofSize == |src| && st.data.eofCrc == Checksum(src) && st.data.peerCc == 0
  }

  lemma TakesEof(cfg: Config, st: Rx.Rx, src: seq<uint8>, env: Rx.Env)
    requires Sized(st, src) && 0 < st.cap && 0 < cfg.ackLimit
    ensures var t := Rx.Recv(cfg, st, EofOf(src), env);
            && Eofed(t, src, cfg.inactTicks) && t.data.sub == Rx.DataNormal && t.flags.eofAckCount == 0
            && !t.flags.sendNak && !t.com.ackArmed
  {
    hide Checksum;
  }

  // The data PDUs picked out of the first pass.
  function Picked(src: seq<uint8>, chunk: nat, picks: seq<nat>): seq<Packet>
    requires 0 < chunk && forall i :: 0 <= i < |picks| ==> picks[i] < |DataOf(src, chunk, 0)|
  {
    if picks == [] then [] else [DataOf(src, chunk, 0)[picks[0]]] + Picked(src, chunk, picks[1..])
  }

  lemma {:induction false} Taking(cfg: Config, src: seq<uint8>, c: Course, s: System, r: System, picks: seq<nat>)
    returns (t: System)
    requires Able(cfg, src) && At(cfg, src, c, s, r) && Sized(r.rx, src)
    requires forall i :: 0 <= i < |picks| ==> picks[i] < |DataOf(src, cfg.chunkSize, 0)|
    requires |r.toRx| == |DataOf(src, cfg.chunkSize, 0)| + 2
    requires forall k :: 0 <= k < |DataOf(src, cfg.chunkSize, 0)| ==> r.toRx[k + 1] == DataOf(src, cfg.chunkSize, 0)[k]
    ensures At(cfg, src, c, s, t) && Sized(t.rx, src) && t == r.(rx := t.rx)
    ensures 0 < r.rx.cap && AllAcceptable(Picked(src, cfg.chunkSize, picks))
    ensures t.rx == RR.Arrivals(cfg, r.rx, Picked(src, cfg.chunkSize, picks), RxGood(|src|))
    decreases |picks|
  {
    hide At, Rx.Recv, Sized, DataOf, Genuine, Able;
    t := r;
    AbleFacts(cfg, src);
    Lists(cfg, src, c, s, r);
    if picks != [] {
      var k := picks[0];
      var p := DataOf(src, cfg.chunkSize, 0)[k];
      DataGenuine(src, cfg.chunkSize, 0, k);
      DataInside(p.pdu, src);
      var a := Take(cfg, src, c, s, r, k + 1, RxGood(|src|));
      TakesData(cfg, r.rx, src, p.pdu.offset, p.pdu.data, RxGood(|src|));
      t := Taking(cfg, src, c, s, a, picks[1..]);
    }
  }

  ghost predicate AllAcceptable(ps: seq<Packet>) { forall k :: 0 <= k < |ps| ==> Rx.Acceptable(ps[k].pdu) }

  lemma AbleFacts(cfg: Config, src: seq<uint8>)
    requires Able(cfg, src)
    ensures Works(cfg) && 0 < cfg.ackLimit && |src| <= U32_MAX && 0 < cfg.chunkSize && ValidConfig(cfg)
  {
  }

  lemma DataInside(p: Pdu, src: seq<uint8>)
    requires p.FileData? && Genuine(p, src, Sound(iset{})) && |src| <= U32_MAX
    ensures |p.data| <= |src| && Rx.Acceptable(p)
  {
  }

  // ---------- the receiver asks for the rest ----------

  // Waiting for data it has asked for, or is about to ask for.
  ghost predicate Filling(st: Rx.Rx, src: seq<uint8>, k: nat) {
    && Eofed(st, src, k) && st.data.sub == Rx.DataEof && st.flags.eofAckCount == 1
  }

  // A request goes out at once, or when the ack timer has run down.
  ghost predicate Waits(cfg: Config, st: Rx.Rx, src: seq<uint8>)
    requires 0 < cfg.crcRate
  {
    Filling(st, src, Patience(cfg, |src|)) && st.data.acknak == 0 && (st.com.ackArmed ==> st.ackTimer <= cfg.ackTicks)
  }

  lemma AnswersEof(cfg: Config, st: Rx.Rx, src: seq<uint8>)
    requires 0 < st.cap && Separated(st.chunks) && 0 < cfg.crcBlock
    requires Eofed(st, src, 1) && st.data.sub == Rx.DataNormal && st.flags.eofAckCount == 0
    requires !st.flags.sendNak && !st.com.ackArmed
    ensures var r := Rx.Tick(cfg, st, RxGood(|src|));
            && Filling(r.rx, src, st.inactTimer - 1) && r.rx.flags.sendNak && r.rx.data.acknak == 0
            && !r.rx.com.ackArmed
            && r.rx.chunks == st.chunks && r.rx.cap == st.cap
            && r.sent == [Packet(false, Ack(DIR_EOF, 0, ACK_STATUS_ACTIVE))]
  {
    hide Separated, Checksum, Rx.NakGaps;
  }

  // Bytes of the file are missing.
  ghost predicate Lacking(st: Rx.Rx, n: nat) { exists x :: 0 <= x < n && !Covers(st.chunks, x) }

  lemma LackingFacts(cfg: Config, st: Rx.Rx, n: nat)
    requires 1 < st.cap && WellFormed(st.cap, st.chunks) && Separated(st.chunks) && n <= U32_MAX && st.fsize == n
    ensures Rx.NakGaps(st.cap, st.chunks, n) != [] <==> Lacking(st, n)
    ensures Gaps.Reported(st.chunks, 1, n, 0) == [] <==> !Lacking(st, n)
  {
    hide Separated, Rx.NakGaps, Gaps.Reported, Covers;
    NR.NakSilentIff(st.cap, st.chunks, n);
    Gaps.ReportsIffMissing(st.chunks, 1, n, 0);
  }

  function NakOf(cfg: Config, st: Rx.Rx): Packet
    requires 0 < st.cap && Separated(st.chunks)
  {
    Packet(false, Nak(Rx.NakSegs(cfg, st.cap, st.chunks, st.fsize)))
  }

  lemma TimersWait(st: Rx.Rx, src: seq<uint8>, k: nat)
    requires Filling(st, src, k + 1)
    ensures var b := Rx.AckTimerTick(Rx.InactivityTick(st));
            && Filling(b, src, k) && b.inactTimer == st.inactTimer - 1 && b.data == st.data && b.flags == st.flags
            && b.cap == st.cap && b.chunks == st.chunks
            && b.com.ackArmed == (st.com.ackArmed && st.ackTimer != 0)
            && (b.com.ackArmed ==> b.ackTimer == st.ackTimer - 1)
  {
    hide Checksum;
  }

  // While bytes are missing: a request falls due unless the ack timer runs.
  lemma AskCheck(cfg: Config, st: Rx.Rx, src: seq<uint8>, k: nat)
    requires 0 < st.cap && Separated(st.chunks) && 0 < cfg.crcBlock && 0 < cfg.ackLimit
    requires Filling(st, src, k) && st.data.acknak == 0 && Gaps.Reported(st.chunks, 1, |src|, 0) != []
    ensures var t := Rx.CheckState(cfg, st, RxGood(|src|));
            && Filling(t, src, k) && t.inactTimer == st.inactTimer && t.cap == st.cap && t.chunks == st.chunks
            && (if st.flags.sendNak || st.com.ackArmed then t == st else t.flags.sendNak)
  {
    hide Separated, Checksum, Gaps.Reported;
  }

  lemma AskSend(cfg: Config, st: Rx.Rx, src: seq<uint8>, k: nat)
    requires 0 < st.cap && Separated(st.chunks) && Filling(st, src, k)
    requires Rx.NakGaps(st.cap, st.chunks, |src|) != []
    ensures var (t, sent) := Rx.Maintain(cfg, st, true);
            if st.flags.sendNak then
              && Filling(t, src, k) && !t.flags.sendNak && t.com.ackArmed && t.ackTimer == cfg.ackTicks
              && t.cap == st.cap && t.chunks == st.chunks && sent == [NakOf(cfg, st)]
            else t == st && sent == []
  {
    hide Separated, Checksum, Rx.NakGaps, Rx.NakSegs;
  }

  lemma AskTick(cfg: Config, st: Rx.Rx, src: seq<uint8>, k: nat)
    requires 0 < st.cap && Separated(st.chunks) && 0 < cfg.crcBlock && 0 < cfg.ackLimit
    requires Filling(st, src, k + 1) && st.data.acknak == 0
    requires Gaps.Reported(st.chunks, 1, |src|, 0) != [] && Rx.NakGaps(st.cap, st.chunks, |src|) != []
    ensures var r := Rx.Tick(cfg, st, RxGood(|src|));
            && Filling(r.rx, src, k) && r.rx.inactTimer == st.inactTimer - 1 && r.rx.cap == st.cap
            && r.rx.chunks == st.chunks
            && (if st.flags.sendNak || !st.com.ackArmed || st.ackTimer == 0 then
                  !r.rx.flags.sendNak && r.rx.com.ackArmed && r.rx.ackTimer == cfg.ackTicks &&
                    r.sent == [NakOf(cfg, st)]
                else
                  r.sent == [] && !r.rx.flags.sendNak && r.rx.com.ackArmed && r.rx.ackTimer == st.ackTimer - 1
                  && r.rx.data.acknak == 0)
  {
    hide Rx.InactivityTick, Rx.AckTimerTick, Rx.CheckState, Rx.Maintain, Separated, Checksum, Gaps.Reported, Rx.NakGaps;
    var b := Rx.AckTimerTick(Rx.InactivityTick(st));
    TimersWait(st, src, k);
    AskCheck(cfg, b, src, k);
    AskSend(cfg, Rx.TickState(cfg, st, RxGood(|src|)), src, k);
    SameRequest(cfg, st, Rx.TickState(cfg, st, RxGood(|src|)));
    TickParts(cfg, st, src);
    SendKeepsTimer(cfg, Rx.TickState(cfg, st, RxGood(|src|)));
  }

  lemma SendKeepsTimer(cfg: Config, st: Rx.Rx)
    requires 0 < st.cap && Separated(st.chunks)
    ensures Rx.Maintain(cfg, st, true).0.inactTimer == st.inactTimer && Rx.Maintain(cfg, st, true).0.data == st.data
  {
    hide Rx.Maintain, Separated;
    RR.MaintainQuiet(cfg, st, true);
  }

  lemma TickParts(cfg: Config, st: Rx.Rx, src: seq<uint8>)
    requires 0 < st.cap && Separated(st.chunks) && 0 < cfg.crcBlock && st.Active()
    ensures Rx.TickState(cfg, st, RxGood(|src|))
         == Rx.CheckState(cfg, Rx.AckTimerTick(Rx.InactivityTick(st)), RxGood(|src|))
  {
    hide Rx.InactivityTick, Rx.AckTimerTick, Rx.CheckState, Separated;
  }

  lemma SameRequest(cfg: Config, st: Rx.Rx, t: Rx.Rx)
    requires 0 < st.cap && Separated(st.chunks) && t.cap == st.cap && t.chunks == st.chunks && t.fsize == st.fsize
    ensures NakOf(cfg, t) == NakOf(cfg, st)
  {
  }

  lemma {:induction false} Asking(cfg: Config, src: seq<uint8>, c: Course, s: System, r: System, k: nat)
    returns (t: System)
    requires Able(cfg, src) && At(cfg, src, c, s, r) && Lacking(r.rx, |src|)
    requires Filling(r.rx, src, k + 1) && r.rx.data.acknak == 0
    requires r.rx.com.ackArmed && !r.rx.flags.sendNak ==> r.rx.ackTimer <= k
    ensures At(cfg, src, c, s, t) && 0 < r.rx.cap && Separated(r.rx.chunks)
    ensures t == r.(rx := t.rx, toTx := r.toTx + [NakOf(cfg, r.rx)])
    ensures Filling(t.rx, src, 0) && !t.rx.flags.sendNak && t.rx.com.ackArmed && t.rx.ackTimer == cfg.ackTicks
    ensures t.rx.chunks == r.rx.chunks && t.rx.cap == r.rx.cap
    decreases k
  {
    hide At, Rx.Tick, Lacking, NakOf, Able;
    AbleFacts(cfg, src);
    Lists(cfg, src, c, s, r);
    LackingFacts(cfg, r.rx, |src|);
    AskTick(cfg, r.rx, src, k);
    t := WakeRx(cfg, src, c, s, r, RxGood(|src|));
    if !r.rx.flags.sendNak && r.rx.com.ackArmed && r.rx.ackTimer != 0 {
      StillLacking(r.rx, t.rx, |src|);
      SameRequest(cfg, r.rx, t.rx);
      t := Asking(cfg, src, c, s, t, k - 1);
    }
  }

  lemma StillLacking(st: Rx.Rx, t: Rx.Rx, n: nat)
    requires Lacking(st, n) && t.chunks == st.chunks
    ensures Lacking(t, n)
  {
  }

  // ---------- the sender answers ----------

  // Ready to serve requests, whatever its list holds.
  ghost predicate Serving(st: Tx.Tx, src: seq<uint8>) {
    Awaiting(st, |src|) && TR.Ranged(st, src, |src|) && TR.Positioned(st)
  }

  lemma {:induction false} LaterTimer(st: Tx.Tx, segs: seq<Seg>, x: nat)
    requires 0 < st.cap
    ensures Tx.RecvNak(st.(inactTimer := x), segs) == Tx.RecvNak(st, segs).(inactTimer := x)
    decreases |segs|
  {
    hide Add;
    if segs != [] {
      LaterTimer(Tx.RecvSeg(st, segs[0]), segs[1..], x);
    }
  }

  // The NAK loads the list.
  lemma HearsNak(cfg: Config, st: Tx.Tx, src: seq<uint8>, segs: seq<Seg>)
    requires Serving(st, src) && 0 < st.cap && 5 <= cfg.inactTicks
    requires forall k :: 0 <= k < |segs| ==> segs[k].start < segs[k].end <= |src|
    ensures var t := Tx.Recv(cfg, st, Packet(false, Nak(segs)));
            && t == Tx.RecvNak(st.(inactTimer := cfg.inactTicks), segs)
            && Serving(t, src)
  {
    hide Tx.RecvNak, WellFormed;
    LaterTimer(st, segs, cfg.inactTicks);
    var a := st.(inactTimer := cfg.inactTicks);
    TxRuns.NakNotes(a, segs);
    TxRuns.NakNotes(st, segs);
    assert TR.Ranged(a, src, |src|);
    NoMetadata(a, segs);
    TxRuns.NakRanged(a, segs, src, |src|);
  }

  lemma {:induction false} NoMetadata(st: Tx.Tx, segs: seq<Seg>)
    requires 0 < st.cap && forall k :: 0 <= k < |segs| ==> segs[k].start < segs[k].end
    ensures Tx.RecvNak(st, segs).flags.sendMd == st.flags.sendMd
    decreases |segs|
  {
    hide Add;
    if segs != [] {
      NoMetadata(Tx.RecvSeg(st, segs[0]), segs[1..]);
    }
  }

  lemma ServeStep(cfg: Config, st: Tx.Tx, src: seq<uint8>)
    requires 0 < cfg.chunkSize && 0 < st.cap && Serving(st, src)
    ensures var (t, sent) := Tx.TickNak(cfg, st, src, TxGood(cfg));
            Serving(t, src) && forall p :: p in sent ==> p.pdu.FileData? && !p.unacknowledged
  {
    hide Tx.TickNak, WellFormed;
    TxRuns.RequestsFeed(cfg, st, src, TxGood(cfg));
    TxRuns.RequestsPosition(cfg, st, src, TxGood(cfg));
    RequestStep(cfg, st, src);
    TxRuns.StepRanged(cfg, st, src, TxRuns.Requests(TxGood(cfg)), |src|);
    ServeHeader(cfg, st, src);
  }

  lemma RequestStep(cfg: Config, st: Tx.Tx, src: seq<uint8>)
    requires 0 < st.cap
    ensures TxRuns.Step(cfg, st, src, TxRuns.Requests(TxGood(cfg))) == Tx.TickNak(cfg, st, src, TxGood(cfg))
  {
    hide Tx.TickNak;
  }

  lemma ServeHeader(cfg: Config, st: Tx.Tx, src: seq<uint8>)
    requires st.phase == Tx.S2
    ensures forall p :: p in Tx.TickNak(cfg, st, src, TxGood(cfg)).1 ==> !p.unacknowledged
  {
    hide Digest, RemoveFromFirst;
  }

  function Goods(cfg: Config, n: nat): (r: seq<Tx.Env>)
    ensures |r| == n && forall k :: 0 <= k < n ==> r[k] == TxGood(cfg)
  {
    if n == 0 then [] else [TxGood(cfg)] + Goods(cfg, n - 1)
  }

  lemma {:induction false} Answering(cfg: Config, src: seq<uint8>, c: Course, s: System, r: System, n: nat)
    returns (t: System)
    requires Works(cfg) && At(cfg, src, c, s, r) && Serving(r.tx, src)
    ensures At(cfg, src, c, s, t) && Serving(t.tx, src)
    ensures var (x, sent) := NR.Serve(cfg, r.tx, src, Goods(cfg, n));
            && t == r.(tx := x, toRx := r.toRx + sent)
            && forall p :: p in sent ==> p.pdu.FileData? && !p.unacknowledged
    decreases n
  {
    hide At, Tx.TickNak, Serving;
    if n == 0 {
      t := r;
    } else {
      assert 0 < r.tx.cap by { Lists(cfg, src, c, s, r); }
      ServeStep(cfg, r.tx, src);
      var a := Answer(cfg, src, c, s, r, TxGood(cfg));
      t := Answering(cfg, src, c, s, a, n - 1);
      assert Goods(cfg, n)[0] == TxGood(cfg) && Goods(cfg, n)[1..] == Goods(cfg, n - 1);
    }
  }

  // ---------- the answers arrive ----------

  lemma FillStep(cfg: Config, st: Rx.Rx, src: seq<uint8>, off: nat, data: seq<uint8>, env: Rx.Env)
    requires Filling(st, src, 0) && !st.flags.sendNak && (st.com.ackArmed ==> st.ackTimer <= cfg.ackTicks)
    requires 0 < st.cap && Rx.Acceptable(FileData(off, data)) && env.seekOk && |data| <= env.written
    ensures var t := Rx.Recv(cfg, st, Packet(false, FileData(off, data)), env);
            && Filling(t, src, cfg.inactTicks) && !t.flags.sendNak && t.data.acknak == 0
            && (t.com.ackArmed ==> t.ackTimer <= cfg.ackTicks)
            && t.chunks == Add(st.cap, st.chunks, Chunk(off, |data|)) && t.cap == st.cap
  {
    hide Add, WriteAt, Checksum;
  }

  // The packets from `k` on are data, and arrive once, in order.
  lemma {:induction false} Arriving(cfg: Config, src: seq<uint8>, c: Course, s: System, r: System, k: nat)
    returns (t: System)
    requires Able(cfg, src) && At(cfg, src, c, s, r) && k <= |r.toRx|
    requires Filling(r.rx, src, 0) && !r.rx.flags.sendNak && (r.rx.com.ackArmed ==> r.rx.ackTimer <= cfg.ackTicks)
    requires k == |r.toRx| ==> Waits(cfg, r.rx, src)
    requires forall p :: p in r.toRx[k..] ==> p.pdu.FileData? && !p.unacknowledged
    ensures At(cfg, src, c, s, t) && t == r.(rx := t.rx) && Waits(cfg, t.rx, src) && !t.rx.flags.sendNak
    ensures 0 < r.rx.cap && t.rx.cap == r.rx.cap && t.rx.chunks == AddAll(r.rx.cap, r.rx.chunks, NR.Blocks(r.toRx[k..]))
    ensures forall i :: 0 <= i < |NR.Blocks(r.toRx[k..])| ==> Addable(NR.Blocks(r.toRx[k..])[i])
    decreases |r.toRx| - k
  {
    hide At, Rx.Recv, Filling, Able, NR.Blocks, AddAll, Add, WellFormed, Genuine, Waits;
    AbleFacts(cfg, src);
    Lists(cfg, src, c, s, r);
    BlocksFrom(r.rx.cap, r.rx.chunks, r.toRx, k);
    if k == |r.toRx| {
      t := r;
    } else {
      var p := r.toRx[k];
      assert p in r.toRx[k..];
      assert r.toRx[k + 1..] == r.toRx[k..][1..];
      DataFits(p.pdu, src);
      var a := Take(cfg, src, c, s, r, k, RxGood(|src|));
      FillStep(cfg, r.rx, src, p.pdu.offset, p.pdu.data, RxGood(|src|));
      PatienceFacts(cfg, src, a.rx);
      t := Arriving(cfg, src, c, s, a, k + 1);
    }
  }

  // The blocks of the packets from `k` on, and what adding them does.
  lemma BlocksFrom(cap: nat, chunks: seq<Chunk>, ps: seq<Packet>, k: nat)
    requires k <= |ps| && (forall p :: p in ps[k..] ==> p.pdu.FileData?)
    requires 0 < cap && WellFormed(cap, chunks)
    ensures k == |ps| ==> NR.Blocks(ps[k..]) == [] && AddAll(cap, chunks, []) == chunks
    ensures k < |ps| ==>
              var c, rest := Chunk(ps[k].pdu.offset, |ps[k].pdu.data|), NR.Blocks(ps[k + 1..]);
              NR.Blocks(ps[k..]) == [c] + rest
              && (Addable(c) && (forall i :: 0 <= i < |rest| ==> Addable(rest[i])) ==>
                    AddAll(cap, chunks, [c] + rest) == AddAll(cap, Add(cap, chunks, c), rest))
  {
    hide Add, WellFormed;
    if k < |ps| {
      var c, rest := Chunk(ps[k].pdu.offset, |ps[k].pdu.data|), NR.Blocks(ps[k + 1..]);
      assert ps[k] in ps[k..];
      assert ps[k..][1..] == ps[k + 1..] && ps[k..][0] == ps[k];
      assert ([c] + rest)[1..] == rest;
    }
  }

  lemma DataFits(p: Pdu, src: seq<uint8>)
    requires p.FileData? && Genuine(p, src, Unknown)
    ensures |p.data| <= |src|
  {
  }

  lemma PatienceFacts(cfg: Config, src: seq<uint8>, st: Rx.Rx)
    requires Able(cfg, src) && Filling(st, src, cfg.inactTicks) && st.data.acknak == 0
    requires st.com.ackArmed ==> st.ackTimer <= cfg.ackTicks
    ensures Filling(st, src, 0) && Waits(cfg, st, src)
  {
    hide RC.CeilDiv;
  }

  // ---------- a round, and all of them ----------

  lemma NakInside(cfg: Config, st: Rx.Rx, n: nat)
    requires 0 < cfg.maxSegments && 0 < st.cap && WellFormed(st.cap, st.chunks) && Separated(st.chunks)
    requires st.fsize == n <= U32_MAX && NR.Within(st.chunks, n) && Rx.NakGaps(st.cap, st.chunks, n) != []
    ensures var segs := Rx.NakSegs(cfg, st.cap, st.chunks, n);
            forall k :: 0 <= k < |segs| ==> segs[k].start < segs[k].end <= n
  {
    NR.RequestedGaps(cfg, st.cap, st.chunks, n);
    hide Gaps.IsGap, Rx.NakGaps;
    var gs := Gaps.Take(Rx.NakGaps(st.cap, st.chunks, n), cfg.maxSegments);
    forall k | 0 <= k < |gs| ensures 0 < gs[k].size && gs[k].End() <= n {
      NR.GapPositive(gs, k);
    }
  }

  lemma {:induction false} BlocksAddable(ps: seq<Packet>)
    requires forall k :: 0 <= k < |ps| ==> Rx.Acceptable(ps[k].pdu)
    ensures forall i :: 0 <= i < |NR.Blocks(ps)| ==> Addable(NR.Blocks(ps)[i])
    decreases |ps|
  {
    if ps != [] {
      BlocksAddable(ps[1..]);
    }
  }

  lemma ServedOut(cfg: Config, st: Tx.Tx, src: seq<uint8>)
    requires 0 < cfg.chunkSize && Serving(st, src) && (st.flags.fdNakPending || st.chunks == [])
    ensures var t := NR.Serve(cfg, st, src, Goods(cfg, Total(st.chunks) + 1)).0;
            t.chunks == [] && !t.flags.fdNakPending
  {
    hide NR.Serve, Separated;
    assert Separated(st.chunks) by { HasSeparated(st.cap, st.chunks); }
    NR.ServeFinishes(cfg, st, src, Goods(cfg, Total(st.chunks) + 1));
  }

  // What the round rests on: the receiver remembers no less than before, and more if
  // the sender had no other requests.
  lemma RoundGrows(cfg: Config, src: seq<uint8>, st: Rx.Rx, tx: Tx.Tx, sent: seq<Packet>, n: nat)
    requires Works(cfg) && 0 < st.cap && WellFormed(st.cap, st.chunks) && Separated(st.chunks) && |src| <= U32_MAX
    requires st.fsize == tx.fsize == |src| && NR.Within(st.chunks, |src|) && Rx.NakGaps(st.cap, st.chunks, |src|) != []
    requires 0 < tx.cap && WellFormed(tx.cap, tx.chunks)
    requires var loaded := Tx.RecvNak(tx, Rx.NakSegs(cfg, st.cap, st.chunks, |src|));
             && NR.Serve(cfg, loaded, src, Goods(cfg, n)).1 == sent
             && NR.Serve(cfg, loaded, src, Goods(cfg, n)).0.chunks == [] && WellFormed(tx.cap, loaded.chunks)
    requires forall k :: 0 <= k < |sent| ==> Rx.Acceptable(sent[k].pdu)
    ensures Total(st.chunks) <= Total(AddAll(st.cap, st.chunks, NR.Blocks(sent))) && sent != []
    ensures tx.chunks == [] ==> Total(st.chunks) < Total(AddAll(st.cap, st.chunks, NR.Blocks(sent)))
  {
    hide WellFormed, Separated, Tx.RecvNak, NR.Serve, Total, Rx.NakGaps, InSome, Add, AddAll, Gaps.IsGap;
    BlocksAddable(sent);
    assert NR.AllAddable(NR.Blocks(sent));
    var gs := Gaps.Take(Rx.NakGaps(st.cap, st.chunks, |src|), cfg.maxSegments);
    NR.RequestedGaps(cfg, st.cap, st.chunks, |src|);
    var loaded := Tx.RecvNak(tx, Rx.NakSegs(cfg, st.cap, st.chunks, |src|));
    NR.RepairRound(cfg, st.cap, st.chunks, tx, src, Goods(cfg, n), gs[0], NR.Blocks(sent));
    RunRefinesSet(st.cap, st.chunks, NR.Blocks(sent));
    SomeByte(tx.cap, loaded.chunks, NR.Blocks(sent));
    if tx.chunks == [] {
      NR.RepairRound(cfg, st.cap, st.chunks, tx, src, Goods(cfg, n), loaded.chunks[0], NR.Blocks(sent));
    }
  }

  lemma SomeByte(cap: nat, s: seq<Chunk>, bs: seq<Chunk>)
    requires WellFormed(cap, s) && s != [] && forall x :: Covers(s, x) <==> InSome(bs, x)
    ensures bs != [] && forall x :: s[0].Has(x) ==> Covers(s, x)
  {
    assert s[0].Has(s[0].offset);
    assert Covers(s, s[0].offset);
  }

  // The request goes out and loads the sender's list.
  lemma Requested(cfg: Config, src: seq<uint8>, c: Course, s: System, r: System) returns (t: System)
    requires Able(cfg, src) && At(cfg, src, c, s, r) && Lacking(r.rx, |src|)
    requires Waits(cfg, r.rx, src) && Serving(r.tx, src)
    ensures At(cfg, src, c, s, t) && t == r.(rx := t.rx, tx := t.tx, toTx := t.toTx) && r.toTx <= t.toTx
    ensures 0 < r.rx.cap && Separated(r.rx.chunks) && t.rx.chunks == r.rx.chunks && t.rx.cap == r.rx.cap
    ensures 0 < r.tx.cap
    ensures t.tx == Tx.RecvNak(r.tx.(inactTimer := cfg.inactTicks), Rx.NakSegs(cfg, r.rx.cap, r.rx.chunks, |src|))
    ensures Serving(t.tx, src) && t.tx.flags.fdNakPending && t.tx.cap == r.tx.cap
    ensures Filling(t.rx, src, 0) && !t.rx.flags.sendNak && t.rx.ackTimer <= cfg.ackTicks
  {
    hide At, Lacking, Awaiting, Serving, Eofed, Able, Separated, WellFormed, Tx.Recv, Tx.RecvNak;
    AbleFacts(cfg, src);
    Lists(cfg, src, c, s, r);
    HasRoom(r.rx, src);
    LackingFacts(cfg, r.rx, |src|);
    NakInside(cfg, r.rx, |src|);
    ServingFacts(r.tx, src);
    EnoughPatience(cfg, src, r.rx);
    var a := Asking(cfg, src, c, s, r, cfg.ackTicks);
    t := Hear(cfg, src, c, s, a, |r.toTx|);
    HearsNak(cfg, a.tx, src, Rx.NakSegs(cfg, r.rx.cap, r.rx.chunks, |src|));
    LoadsFlag(cfg, r.rx, a.tx.(inactTimer := cfg.inactTicks), src);
    TxRuns.NakNotes(a.tx.(inactTimer := cfg.inactTicks), Rx.NakSegs(cfg, r.rx.cap, r.rx.chunks, |src|));
  }

  lemma Round(cfg: Config, src: seq<uint8>, c: Course, s: System, r: System) returns (t: System)
    requires Able(cfg, src) && At(cfg, src, c, s, r) && Lacking(r.rx, |src|)
    requires Waits(cfg, r.rx, src) && Serving(r.tx, src)
    ensures At(cfg, src, c, s, t) && Waits(cfg, t.rx, src) && Serving(t.tx, src) && t.tx.chunks == []
    ensures Total(r.rx.chunks) <= Total(t.rx.chunks) && r.toTx <= t.toTx
    ensures r.tx.chunks == [] ==> Total(r.rx.chunks) < Total(t.rx.chunks)
  {
    hide At, Lacking, Awaiting, Serving, Eofed, Filling, Able, NR.Serve, Total, AddAll, Separated, WellFormed;
    hide Genuine, NR.Blocks;
    hide Tx.RecvNak;
    AbleFacts(cfg, src);
    Lists(cfg, src, c, s, r);
    RoomLeft(cfg, r.rx, src);
    LackingFacts(cfg, r.rx, |src|);
    ServingFacts(r.tx, src);
    var b := Requested(cfg, src, c, s, r);
    ServingFacts(b.tx, src);
    var n := Total(b.tx.chunks) + 1;
    var d := Answering(cfg, src, c, s, b, n);
    ServedOut(cfg, b.tx, src);
    var sent := NR.Serve(cfg, b.tx, src, Goods(cfg, n)).1;
    Lists(cfg, src, c, s, d);
    Tail(b.toRx, sent, d.toRx);
    RoundGrows(cfg, src, r.rx, r.tx.(inactTimer := cfg.inactTicks), sent, n);
    t := Arriving(cfg, src, c, s, d, |b.toRx|);
  }

  lemma RoomLeft(cfg: Config, st: Rx.Rx, src: seq<uint8>)
    requires Able(cfg, src) && Waits(cfg, st, src)
    ensures 1 < st.cap && st.fsize == |src|
  {
    hide RC.CeilDiv;
  }

  lemma HasRoom(st: Rx.Rx, src: seq<uint8>)
    requires Eofed(st, src, 0) || exists k :: Eofed(st, src, k)
    ensures 1 < st.cap && st.fsize == |src|
  {
  }

  lemma ServingFacts(st: Tx.Tx, src: seq<uint8>)
    requires Serving(st, src)
    ensures 0 < st.cap && WellFormed(st.cap, st.chunks) && st.fsize == |src| <= U32_MAX
  {
    hide WellFormed;
  }

  lemma EnoughPatience(cfg: Config, src: seq<uint8>, st: Rx.Rx)
    requires Able(cfg, src) && Waits(cfg, st, src)
    ensures Filling(st, src, cfg.ackTicks + 1) && 5 <= cfg.inactTicks
  {
    hide RC.CeilDiv;
  }

  lemma LoadsFlag(cfg: Config, st: Rx.Rx, tx: Tx.Tx, src: seq<uint8>)
    requires Works(cfg) && 0 < st.cap && WellFormed(st.cap, st.chunks) && Separated(st.chunks) && |src| <= U32_MAX
    requires st.fsize == tx.fsize == |src| && NR.Within(st.chunks, |src|) && Rx.NakGaps(st.cap, st.chunks, |src|) != []
    requires 0 < tx.cap && WellFormed(tx.cap, tx.chunks)
    ensures var t := Tx.RecvNak(tx, Rx.NakSegs(cfg, st.cap, st.chunks, |src|));
            t.flags.fdNakPending && WellFormed(tx.cap, t.chunks)
  {
    hide Separated, WellFormed, Tx.RecvNak, Rx.NakGaps;
    NR.RequestedGaps(cfg, st.cap, st.chunks, |src|);
    NR.LoadsSome(tx, Gaps.Take(Rx.NakGaps(st.cap, st.chunks, |src|), cfg.maxSegments));
  }

  lemma Tail(a: seq<Packet>, b: seq<Packet>, c: seq<Packet>)
    requires c == a + b
    ensures c[|a|..] == b && forall k :: 0 <= k < |b| ==> b[k] == c[|a| + k]
  {
  }

  // Round after round until nothing is missing. The first one may serve only what the
  // sender had listed before.
  lemma {:induction false} Repairing(cfg: Config, src: seq<uint8>, c: Course, s: System, r: System) returns (t: System)
    requires Able(cfg, src) && At(cfg, src, c, s, r) && Waits(cfg, r.rx, src)
    requires Serving(r.tx, src) && Separated(r.rx.chunks) && Total(r.rx.chunks) <= |src|
    ensures At(cfg, src, c, s, t) && Waits(cfg, t.rx, src) && Serving(t.tx, src)
    ensures !Lacking(t.rx, |src|) && r.toTx <= t.toTx && (!Lacking(r.rx, |src|) ==> t == r)
    decreases |src| - Total(r.rx.chunks), if r.tx.chunks == [] then 0 else 1
  {
    hide At, Lacking, Waits, Serving, Able, Separated, Total;
    if Lacking(r.rx, |src|) {
      var a := Round(cfg, src, c, s, r);
      AbleFacts(cfg, src);
      Lists(cfg, src, c, s, a);
      NR.TotalWithin(a.rx.chunks, |src|);
      t := Repairing(cfg, src, c, s, a);
    } else {
      t := r;
    }
  }
}
