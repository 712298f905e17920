/**
 Transfers do get through: whatever subset of the data of a file arrives, in whatever
 order and how often, some continuation of the run delivers the file and ends with it
 retained and the source deleted. So the guarantee of EndToEnd is about something.
 */
module Delivery {
  import opened Cfdp
  import opened Crc
  import opened ChunkSpec
  import opened Link
  import Gaps
  import NR = NakRepair
  import Rx = RxSpec
  import RR = RxRuns
  import RC = RxChecksum
  import RF = RxFile
  import Tx = TxSpec
  import TR = TxReads
  import opened EndToEnd
  import opened Reach
  import opened Transfer

  // ---------- nothing is missing any more ----------

  // A request still due finds nothing to ask for.
  lemma Silent(cfg: Config, st: Rx.Rx, src: seq<uint8>, k: nat)
    requires 0 < st.cap && Separated(st.chunks) && 0 < cfg.crcBlock && Filling(st, src, k + 1) && st.flags.sendNak
    requires Rx.NakGaps(st.cap, st.chunks, |src|) == []
    ensures var r := Rx.Tick(cfg, st, RxGood(|src|));
            && Filling(r.rx, src, k) && !r.rx.flags.sendNak && r.sent == []
            && r.rx.cap == st.cap && r.rx.chunks == st.chunks && r.rx.disk == st.disk
  {
    hide Rx.InactivityTick, Rx.AckTimerTick, Rx.CheckState, Rx.Maintain, Separated, Checksum, Rx.NakGaps;
    var b := Rx.AckTimerTick(Rx.InactivityTick(st));
    TimersWait(st, src, k);
    RR.TimersTimed(st);
    TickParts(cfg, st, src);
    SilentCheck(cfg, b, src, k);
    SilentSend(cfg, b, src, k);
  }

  lemma SilentCheck(cfg: Config, st: Rx.Rx, src: seq<uint8>, k: nat)
    requires Separated(st.chunks) && 0 < cfg.crcBlock && Filling(st, src, k) && st.flags.sendNak
    ensures Rx.CheckState(cfg, st, RxGood(|src|)) == st
  {
    hide Separated, Checksum;
  }

  lemma SilentSend(cfg: Config, st: Rx.Rx, src: seq<uint8>, k: nat)
    requires 0 < st.cap && Separated(st.chunks) && Filling(st, src, k) && st.flags.sendNak
    requires Rx.NakGaps(st.cap, st.chunks, |src|) == []
    ensures var (t, sent) := Rx.Maintain(cfg, st, true);
            Filling(t, src, k) && !t.flags.sendNak && sent == [] && t.cap == st.cap && t.chunks == st.chunks &&
              t.disk == st.disk
  {
    hide Separated, Checksum, Rx.NakGaps;
  }

  lemma Settling(cfg: Config, src: seq<uint8>, c: Course, s: System, r: System, k: nat) returns (t: System)
    requires Able(cfg, src) && At(cfg, src, c, s, r) && Filling(r.rx, src, k + 1) && !Lacking(r.rx, |src|)
    ensures At(cfg, src, c, s, t) && t == r.(rx := t.rx) && Filling(t.rx, src, k) && !t.rx.flags.sendNak
    ensures t.rx.chunks == r.rx.chunks && t.rx.cap == r.rx.cap && t.rx.disk == r.rx.disk && 0 < r.rx.cap
  {
    hide At, Rx.Tick, Lacking, Able, Eofed;
    AbleFacts(cfg, src);
    Lists(cfg, src, c, s, r);
    HasRoom(r.rx, src);
    LackingFacts(cfg, r.rx, |src|);
    FillingLess(r.rx, src, k);
    t := r;
    if r.rx.flags.sendNak {
      Silent(cfg, r.rx, src, k);
      t := WakeRx(cfg, src, c, s, r, RxGood(|src|));
    }
  }

  lemma FillingLess(st: Rx.Rx, src: seq<uint8>, k: nat)
    requires Filling(st, src, k + 1)
    ensures Filling(st, src, k) && Eofed(st, src, k + 1)
  {
  }

  // ---------- the checksum ----------

  // Nothing is due to be sent.
  ghost predicate Settled(st: Rx.Rx, src: seq<uint8>) {
    && st.phase == Rx.R2 && st.reliable && st.flags.eofAckCount == st.flags.eofCount
    && !st.flags.sendNak && !st.flags.sendFin && st.flags.tempCreated && st.data.eofCrc == Checksum(src)
  }

  lemma SettledTimers(st: Rx.Rx, src: seq<uint8>)
    requires Settled(st, src) && 0 < st.inactTimer
    ensures var b := Rx.AckTimerTick(Rx.InactivityTick(st));
            && Settled(b, src) && b.data == st.data && b.flags == st.flags && b.status == st.status
            && b.chunks == st.chunks
            && b.cap == st.cap && b.fsize == st.fsize
  {
    hide Checksum;
  }

  lemma SettledSend(cfg: Config, st: Rx.Rx, src: seq<uint8>)
    requires 0 < st.cap && Separated(st.chunks) && Settled(st, src)
    ensures Rx.Maintain(cfg, st, true) == (st, [])
  {
    hide Separated, Checksum;
  }

  lemma ValidateSettled(cfg: Config, st: Rx.Rx, src: seq<uint8>)
    requires 0 < st.cap && Separated(st.chunks) && 0 < cfg.crcBlock && Settled(st, src)
    requires st.data.sub == Rx.Validate && 0 < st.inactTimer
    ensures var r := Rx.Tick(cfg, st, RxGood(|src|));
            Settled(r.rx, src) && r.sent == []
  {
    hide Rx.InactivityTick, Rx.AckTimerTick, Rx.CheckState, Rx.Maintain, Separated, Checksum;
    var b := Rx.AckTimerTick(Rx.InactivityTick(st));
    SettledTimers(st, src);
    ValidateSettles(cfg, b, src);
    RR.TickKeepsList(cfg, st, RxGood(|src|));
    Rx.CheckStateKeepsChunks(cfg, b, RxGood(|src|));
    SettledSend(cfg, Rx.TickState(cfg, st, RxGood(|src|)), src);
  }

  lemma ValidateSettles(cfg: Config, st: Rx.Rx, src: seq<uint8>)
    requires Separated(st.chunks) && 0 < cfg.crcBlock && Settled(st, src) && st.data.sub == Rx.Validate
    ensures Settled(Rx.CheckState(cfg, st, RxGood(|src|)), src)
  {
    hide Separated, Checksum, Rx.CrcLoop, Finalize;
  }

  lemma EntrySettled(cfg: Config, st: Rx.Rx, src: seq<uint8>)
    requires 0 < st.cap && Separated(st.chunks) && 0 < cfg.crcBlock && Filling(st, src, 1) && !st.flags.sendNak
    requires Rx.CheckComplete(st)
    ensures var r := Rx.Tick(cfg, st, RxGood(|src|));
            Settled(r.rx, src) && r.sent == []
  {
    hide Rx.InactivityTick, Rx.AckTimerTick, Rx.CheckState, Rx.Maintain, Separated, Checksum, Gaps.Reported;
    var b := Rx.AckTimerTick(Rx.InactivityTick(st));
    TimersWait(st, src, 0);
    RR.TimersTimed(st);
    assert Rx.CheckComplete(b);
    TickParts(cfg, st, src);
    EntrySettles(cfg, b, src);
    Rx.CheckStateKeepsChunks(cfg, b, RxGood(|src|));
    SettledSend(cfg, Rx.TickState(cfg, st, RxGood(|src|)), src);
  }

  lemma EntrySettles(cfg: Config, st: Rx.Rx, src: seq<uint8>)
    requires Separated(st.chunks) && 0 < cfg.crcBlock && Filling(st, src, 0) && !st.flags.sendNak
    requires Rx.CheckComplete(st)
    ensures Settled(Rx.CheckState(cfg, st, RxGood(|src|)), src)
  {
    hide Separated, Checksum, Rx.CheckComplete;
  }

  lemma {:induction false} Checksumming(cfg: Config, src: seq<uint8>, c: Course, s: System, r: System, k: nat,
                                        d: seq<uint8>)
    returns (t: System)
    requires Able(cfg, src) && At(cfg, src, c, s, r) && Settled(r.rx, src) && RC.Validating(r.rx, k, d)
    requires r.rx.fsize == |src| && RC.CeilDiv(r.rx.fsize - k, cfg.crcRate) + 2 <= r.rx.inactTimer
    ensures At(cfg, src, c, s, t) && t == r.(rx := t.rx) && Settled(t.rx, src) && RC.SameFile(r.rx, t.rx)
    ensures r.rx.fsize <= |r.rx.disk.temp|
    ensures t.rx.data.sub == Rx.FileStore && t.rx.Ok() && !t.rx.com.inactFired && 0 < t.rx.inactTimer
    ensures t.rx.crc.result == Checksum(Words(RC.Final(r.rx, k, d)))
    decreases r.rx.fsize - k
  {
    hide At, Rx.Tick, Able, Settled, RC.Computing, RC.CeilDiv, Checksum, RC.Further, RC.Final, Words;
    AbleFacts(cfg, src);
    Lists(cfg, src, c, s, r);
    RC.ComputingHere(r.rx, k, d);
    RC.CeilDivStep(r.rx.fsize - k, cfg.crcRate);
    RC.ValidateTick(cfg, r.rx, k, d, RxGood(|src|));
    ValidateSettled(cfg, r.rx, src);
    t := WakeRx(cfg, src, c, s, r, RxGood(|src|));
    if k < r.rx.fsize {
      var (end, e) := RC.Further(cfg, r.rx, k, d);
      RC.FurtherEnd(cfg, r.rx, k, d);
      RC.FurtherFinal(cfg, r.rx, t.rx, k, d);
      t := Checksumming(cfg, src, c, s, t, end, e);
    } else {
      RC.DoneResult(t.rx, d);
      RC.AtTheEnd(r.rx, k, d);
    }
  }

  // ---------- the file is kept, and the FIN says so ----------

  lemma KeepCheck(cfg: Config, st: Rx.Rx, src: seq<uint8>)
    requires Separated(st.chunks) && 0 < cfg.crcBlock && Settled(st, src) && st.data.sub == Rx.FileStore && st.Ok()
    requires st.com.isComplete && st.crc.result == Checksum(src)
    ensures var t := Rx.CheckState(cfg, st, RxGood(|src|));
            && t.disk.retained == Some(st.disk.temp) && t.phase == Rx.R2 && t.reliable && t.Ok()
            && t.data.sub == Rx.FinAck && t.flags.eofAckCount == t.flags.eofCount && !t.flags.sendNak && t.flags.sendFin
            && t.data.finDc == DC_COMPLETE && t.data.finFs == FS_RETAINED
  {
    hide Separated, Checksum;
  }

  lemma ReportsKept(cfg: Config, st: Rx.Rx)
    requires 0 < st.cap && Separated(st.chunks) && st.phase == Rx.R2 && st.reliable && st.Ok()
    requires st.flags.eofAckCount == st.flags.eofCount && !st.flags.sendNak && st.flags.sendFin
    requires st.data.finDc == DC_COMPLETE && st.data.finFs == FS_RETAINED
    ensures var (t, sent) := Rx.Maintain(cfg, st, true);
            && t.disk == st.disk && t.data == st.data && t.phase == st.phase && t.reliable && t.Ok() && !t.flags.sendFin
            && sent == [Packet(false, Fin(0, DC_COMPLETE, FS_RETAINED))]
  {
    hide Separated;
  }

  // The FIN is out, and all that is missing is the FIN-ACK.
  ghost predicate Reporting(st: Rx.Rx) {
    st.phase == Rx.R2 && st.reliable && st.data.sub == Rx.FinAck && st.Ok() && !st.flags.sendFin
  }

  lemma Keeps(cfg: Config, st: Rx.Rx, src: seq<uint8>)
    requires 0 < st.cap && Separated(st.chunks) && 0 < cfg.crcBlock && Settled(st, src)
    requires st.data.sub == Rx.FileStore && st.Ok()
    requires st.com.isComplete && st.crc.result == Checksum(src) && !st.com.inactFired && 0 < st.inactTimer
    ensures var r := Rx.Tick(cfg, st, RxGood(|src|));
            && r.rx.disk.retained == Some(st.disk.temp) && Reporting(r.rx)
            && r.sent == [Packet(false, Fin(0, DC_COMPLETE, FS_RETAINED))]
  {
    hide Rx.InactivityTick, Rx.AckTimerTick, Rx.CheckState, Rx.Maintain, Separated, Checksum;
    var b := Rx.AckTimerTick(Rx.InactivityTick(st));
    SettledTimers(st, src);
    RR.TimersTimed(st);
    KeepCheck(cfg, b, src);
    Rx.CheckStateKeepsChunks(cfg, b, RxGood(|src|));
    ReportsKept(cfg, Rx.TickState(cfg, st, RxGood(|src|)));
  }

  function FinOk(): Packet { Packet(false, Fin(0, DC_COMPLETE, FS_RETAINED)) }

  // From a receiver that lacks nothing, whatever its file holds, as long as size and
  // checksum are right.
  lemma Retaining(cfg: Config, src: seq<uint8>, c: Course, s: System, r: System) returns (t: System)
    requires Able(cfg, src) && At(cfg, src, c, s, r) && Waits(cfg, r.rx, src) && !Lacking(r.rx, |src|)
    requires |r.rx.disk.temp| == |src| && Checksum(r.rx.disk.temp) == Checksum(src)
    ensures At(cfg, src, c, s, t) && t == r.(rx := t.rx, toTx := r.toTx + [FinOk()])
    ensures t.rx.disk.retained == Some(r.rx.disk.temp) && Reporting(t.rx)
  {
    hide At, Rx.Tick, Lacking, Able, Settled, RC.Computing, Checksum, RC.Final, Words, RC.CeilDiv, Gaps.Reported;
    hide Receiver;
    AbleFacts(cfg, src);
    LongEnough(cfg, src, r.rx);
    var a := Settling(cfg, src, c, s, r, RC.CeilDiv(|src|, cfg.crcRate) + 6);
    Lists(cfg, src, c, s, a);
    CompleteNow(cfg, r.rx, a.rx, src);
    RC.EntersValidate(cfg, a.rx, RxGood(|src|));
    EntrySettled(cfg, a.rx, src);
    var b := WakeRx(cfg, src, c, s, a, RxGood(|src|));
    RC.ComputingHere(b.rx, 0, []);
    var d := Checksumming(cfg, src, c, s, b, 0, []);
    RC.WholeFile(b.rx);
    assert b.rx.disk.temp[..|src|] == b.rx.disk.temp;
    Lists(cfg, src, c, s, d);
    Keeps(cfg, d.rx, src);
    t := WakeRx(cfg, src, c, s, d, RxGood(|src|));
  }

  lemma LongEnough(cfg: Config, src: seq<uint8>, st: Rx.Rx)
    requires Able(cfg, src) && Waits(cfg, st, src)
    ensures Filling(st, src, RC.CeilDiv(|src|, cfg.crcRate) + 7)
  {
  }

  // The completeness check succeeds.
  lemma CompleteNow(cfg: Config, was: Rx.Rx, st: Rx.Rx, src: seq<uint8>)
    requires 0 < st.cap && WellFormed(st.cap, st.chunks) && Separated(st.chunks) && |src| <= U32_MAX
    requires !Lacking(was, |src|) && was.chunks == st.chunks
    requires 0 < cfg.crcRate && !st.flags.sendNak && Filling(st, src, RC.CeilDiv(|src|, cfg.crcRate) + 6)
    ensures Rx.CheckComplete(st) && st.Active() && st.data.sub == Rx.DataEof && st.Ok() && !st.com.inactFired
    ensures RC.CeilDiv(|src|, cfg.crcRate) + 6 <= st.inactTimer && Filling(st, src, 1)
    ensures st.disk.fdOpen && st.fsize == st.data.eofSize == |src|
  {
    hide Separated, Gaps.Reported, Checksum, RC.CeilDiv, Covers;
    LackingFacts(cfg, st, |src|);
  }

  // ---------- the source is deleted ----------

  lemma HearsAck(cfg: Config, st: Tx.Tx, n: nat)
    requires 0 < st.cap && Awaiting(st, n) && 5 <= cfg.inactTicks
    ensures var t := Tx.Recv(cfg, st, Packet(false, Ack(DIR_EOF, 0, ACK_STATUS_ACTIVE)));
            Awaiting(t, n) && t.flags.eofAckRecv
  {
  }

  ghost predicate Told(st: Tx.Tx, n: nat) {
    && Sender(st, n, 3) && st.data.sub == Tx.DataEof && !st.flags.sendEof && !st.flags.sendMd
    && st.flags.finCount == 1 && st.flags.eofAckRecv && st.data.finDc == DC_COMPLETE && st.data.finFs == FS_RETAINED
    && st.data.peerCc == 0
  }

  lemma HearsFin(cfg: Config, st: Tx.Tx, n: nat)
    requires 0 < st.cap && Awaiting(st, n) && st.flags.eofAckRecv && 5 <= cfg.inactTicks && 0 < cfg.ackLimit
    ensures var t := Tx.Recv(cfg, st, FinOk());
            Told(t, n) && t.flags.finAckCount == 0 && 4 <= t.inactTimer
  {
  }

  lemma TxTimers(st: Tx.Tx, n: nat, k: nat)
    requires Sender(st, n, k + 1)
    ensures var b := Tx.AckTimerTick(Tx.InactivityTick(st));
            Sender(b, n, k) && b.data == st.data && b.flags == st.flags && b.com.isComplete == st.com.isComplete
  {
  }

  // Wakeups in which only the state check matters, and sending nothing but a FIN-ACK.
  lemma TxQuiet(cfg: Config, st: Tx.Tx, n: nat, k: nat)
    requires Sender(st, n, k) && !st.flags.sendMd && !st.flags.sendEof
    ensures var t := Tx.Maintain(cfg, st, true).0;
            && Sender(t, n, k) && t.data == st.data && t.com.isComplete == st.com.isComplete
            && t.flags == st.flags.(finAckCount := st.flags.finCount)
  {
  }

  ghost predicate Answered(st: Tx.Tx, n: nat) { Told(st, n) && st.flags.finAckCount == 1 }

  lemma AnswersFin(cfg: Config, st: Tx.Tx, n: nat)
    requires Told(st, n) && st.flags.finAckCount == 0 && 4 <= st.inactTimer
    ensures Answered(Tx.Tick(cfg, st, TxGood(cfg)).tx, n) && Tx.Tick(cfg, st, TxGood(cfg)).sent == [FinAck()]
  {
    hide Tx.InactivityTick, Tx.AckTimerTick, Tx.CheckState, Tx.Maintain;
    var b := Tx.AckTimerTick(Tx.InactivityTick(st));
    TxTimers(st, n, 3);
    Unanswered(cfg, b, TxGood(cfg));
    TxQuiet(cfg, b, n, 3);
    AnswerOut(cfg, b, n);
  }

  function FinAck(): Packet { Packet(false, Ack(DIR_FIN, 0, ACK_STATUS_ACTIVE)) }

  lemma AnswerOut(cfg: Config, st: Tx.Tx, n: nat)
    requires Told(st, n) && st.flags.finAckCount == 0
    ensures Tx.Maintain(cfg, st, true).1 == [FinAck()]
  {
  }

  // While a FIN is not answered nothing else is decided.
  lemma Unanswered(cfg: Config, st: Tx.Tx, env: Tx.Env)
    requires st.reliable && st.Ok() && st.data.sub == Tx.DataEof && !st.flags.sendEof
    requires st.flags.finCount != st.flags.finAckCount
    ensures Tx.CheckState(cfg, st, env) == st
  {
  }

  ghost predicate Storing(st: Tx.Tx, n: nat) {
    && Sender(st, n, 1) && st.data.sub == Tx.FileStore && st.com.isComplete && !st.flags.sendMd && !st.flags.sendEof
    && st.data.finDc == DC_COMPLETE && st.data.finFs == FS_RETAINED
  }

  lemma Completes(cfg: Config, st: Tx.Tx, n: nat)
    requires Answered(st, n)
    ensures Storing(Tx.Tick(cfg, st, TxGood(cfg)).tx, n)
  {
    hide Tx.InactivityTick, Tx.AckTimerTick, Tx.CheckState, Tx.Maintain;
    var b := Tx.AckTimerTick(Tx.InactivityTick(st));
    TxTimers(st, n, 2);
    CompleteCheck(cfg, b, n);
    TxQuiet(cfg, Tx.TickState(cfg, st, TxGood(cfg)), n, 1);
  }

  lemma CompleteCheck(cfg: Config, st: Tx.Tx, n: nat)
    requires Sender(st, n, 2) && st.data.sub == Tx.DataEof && !st.flags.sendEof && !st.flags.sendMd
    requires st.flags.finCount == 1 && st.flags.finAckCount == 1 && st.flags.eofAckRecv
    requires st.data.finDc == DC_COMPLETE && st.data.finFs == FS_RETAINED
    ensures Storing(Tx.CheckState(cfg, st, TxGood(cfg)), n)
  {
  }

  // Held over without error, and the source deleted.
  predicate Over(st: Tx.Tx) { st.phase == Tx.Hold && st.Ok() && st.source == Tx.Deleted }

  lemma Deletes(cfg: Config, st: Tx.Tx, n: nat)
    requires Storing(st, n)
    ensures Over(Tx.Tick(cfg, st, TxGood(cfg)).tx)
  {
    hide Tx.InactivityTick, Tx.AckTimerTick, Tx.CheckState, Tx.Maintain;
    var b := Tx.AckTimerTick(Tx.InactivityTick(st));
    TxTimers(st, n, 0);
    DeleteCheck(cfg, b, n);
    StaysOver(cfg, Tx.TickState(cfg, st, TxGood(cfg)));
  }

  lemma DeleteCheck(cfg: Config, st: Tx.Tx, n: nat)
    requires Sender(st, n, 0) && st.data.sub == Tx.FileStore && st.com.isComplete
    requires st.data.finDc == DC_COMPLETE && st.data.finFs == FS_RETAINED
    ensures Over(Tx.CheckState(cfg, st, TxGood(cfg)))
  {
  }

  lemma StaysOver(cfg: Config, st: Tx.Tx)
    requires Over(st)
    ensures Over(Tx.Maintain(cfg, st, true).0)
  {
  }

  function EofAck(): Packet { Packet(false, Ack(DIR_EOF, 0, ACK_STATUS_ACTIVE)) }

  // The EOF-ACK and the FIN arrive, whatever else is on the link.
  lemma Deleting(cfg: Config, src: seq<uint8>, c: Course, s: System, r: System) returns (t: System, k: nat)
    requires Able(cfg, src) && At(cfg, src, c, s, r) && Awaiting(r.tx, |src|)
    requires 1 < |r.toTx| && r.toTx[0] == EofAck() && r.toTx[|r.toTx| - 1] == FinOk()
    ensures At(cfg, src, c, s, t) && t.rx == r.rx && Over(t.tx)
    ensures k < |t.toRx| && t.toRx[k] == FinAck()
  {
    hide At, Tx.Tick, Tx.Recv, Awaiting, Told, Answered, Storing, Able, Over;
    AbleFacts(cfg, src);
    assert 5 <= cfg.inactTicks by { TimersLong(cfg, src); }
    var a := Hear(cfg, src, c, s, r, 0);
    HearsAck(cfg, r.tx, |src|);
    var b := Hear(cfg, src, c, s, a, |r.toTx| - 1);
    HearsFin(cfg, a.tx, |src|);
    AnswersFin(cfg, b.tx, |src|);
    var d := WakeTx(cfg, src, c, s, b, TxGood(cfg));
    Completes(cfg, d.tx, |src|);
    var e := WakeTx(cfg, src, c, s, d, TxGood(cfg));
    Deletes(cfg, e.tx, |src|);
    t := WakeTx(cfg, src, c, s, e, TxGood(cfg));
    k := |r.toRx|;
  }

  // ---------- the receiver hears of it ----------

  lemma HearsFinAck(cfg: Config, st: Rx.Rx, env: Rx.Env)
    requires 0 < st.cap && Reporting(st) && 0 < cfg.inactTicks
    ensures var t := Rx.Recv(cfg, st, FinAck(), env);
            && Reporting(t) && t.flags.finAckRecv && t.disk == st.disk && 0 < t.inactTimer && t.chunks == st.chunks
  {
  }

  lemma EndsHeldOver(cfg: Config, st: Rx.Rx, env: Rx.Env)
    requires 0 < st.cap && Separated(st.chunks) && 0 < cfg.crcBlock && Reporting(st) && st.flags.finAckRecv
    requires 0 < st.inactTimer
    ensures var t := Rx.Tick(cfg, st, env).rx;
            t.phase == Rx.Hold && t.Ok() && t.disk.retained == st.disk.retained
  {
    hide Rx.InactivityTick, Rx.AckTimerTick, Rx.CheckState, Rx.Maintain, Separated;
    var b := Rx.AckTimerTick(Rx.InactivityTick(st));
    StillClean(st);
    RR.TimersTimed(st);
    LastCheck(cfg, b, env);
    RR.MaintainQuiet(cfg, Rx.TickState(cfg, st, env), env.bufOk);
  }

  lemma StillClean(st: Rx.Rx)
    requires st.Ok() && 0 < st.inactTimer
    ensures Rx.AckTimerTick(Rx.InactivityTick(st)).Ok()
  {
  }

  lemma LastCheck(cfg: Config, st: Rx.Rx, env: Rx.Env)
    requires Separated(st.chunks) && 0 < cfg.crcBlock && Reporting(st) && st.flags.finAckRecv
    ensures var t := Rx.CheckState(cfg, st, env);
            t.phase == Rx.Hold && t.Ok() && t.disk.retained == st.disk.retained
  {
    hide Separated;
  }

  lemma Closing(cfg: Config, src: seq<uint8>, c: Course, s: System, r: System, k: nat) returns (t: System)
    requires Able(cfg, src) && At(cfg, src, c, s, r) && Reporting(r.rx) && k < |r.toRx| && r.toRx[k] == FinAck()
    ensures At(cfg, src, c, s, t) && t.tx == r.tx
    ensures t.rx.phase == Rx.Hold && t.rx.Ok() && t.rx.disk.retained == r.rx.disk.retained
  {
    hide At, Rx.Tick, Rx.Recv, Able, Reporting;
    AbleFacts(cfg, src);
    assert 5 <= cfg.inactTicks by { TimersLong(cfg, src); }
    var a := Take(cfg, src, c, s, r, k, RxGood(|src|));
    HearsFinAck(cfg, r.rx, RxGood(|src|));
    Lists(cfg, src, c, s, a);
    EndsHeldOver(cfg, a.rx, RxGood(|src|));
    t := WakeRx(cfg, src, c, s, a, RxGood(|src|));
  }

  // The file is kept, the source deleted, and both ends are held over without error.
  ghost predicate Through(t: System, file: seq<uint8>) {
    Over(t.tx) && t.rx.phase == Rx.Hold && t.rx.Ok() && t.rx.disk.retained == Some(file)
  }

  lemma TimersLong(cfg: Config, src: seq<uint8>)
    requires Able(cfg, src)
    ensures 5 <= cfg.inactTicks
  {
    hide RC.CeilDiv;
  }

  // ---------- delivery ----------

  // In a sound run a receiver that lacks nothing has every byte of the source but those
  // its list remembered from the start.
  lemma HoldsSource(cfg: Config, src: seq<uint8>, known: iset<int>, s: System, r: System)
    requires Able(cfg, src) && At(cfg, src, Sound(known), s, r) && Waits(cfg, r.rx, src)
    requires !Lacking(r.rx, |src|) && Serving(r.tx, src)
    ensures Right(r.rx.disk.temp, src, known)
  {
    hide Reaches, Invariant, Lacking, RF.Faithful, Gaps.Reported, Checksum, TR.Ranged, Tidy, Right;
    Lists(cfg, src, Sound(known), s, r);
    LackingFacts(cfg, r.rx, |src|);
    NoNakDue(r.rx, src, known);
    RF.CompleteIsSource(r.rx.(flags := r.rx.flags.(sendNak := false)), src, known);
  }

  lemma NoNakDue(st: Rx.Rx, src: seq<uint8>, known: iset<int>)
    requires RF.Faithful(st, Rx.DataEof, src, Sound(known))
    ensures RF.Faithful(st.(flags := st.flags.(sendNak := false)), Rx.DataEof, src, Sound(known))
  {
    hide RF.Faithful;
    RF.QuietFaithful(st, st.(flags := st.flags.(sendNak := false)), Rx.DataEof, src, Sound(known));
  }

  // Size and checksum are those of the source.
  predicate Passes(file: seq<uint8>, src: seq<uint8>) { |file| == |src| && Checksum(file) == Checksum(src) }

  // From any state of a sound run in which the sender waits for the end and the
  // receiver for data, whatever the receiver has and lacks and whatever the sender has
  // listed, with no entry behind the end of the file in either list: some continuation
  // leads to a state in which nothing is missing any more; then the file has every byte
  // of the source but those the list remembered from the start, and if it passes, some
  // continuation ends with it retained, the source deleted and both ends held over
  // without error.
  lemma DeliversFrom(cfg: Config, src: seq<uint8>, known: iset<int>, s: System, r: System)
    returns (v: System, t: System)
    requires Able(cfg, src) && At(cfg, src, Sound(known), s, r) && Waits(cfg, r.rx, src) && Serving(r.tx, src)
    requires r.toTx != [] && r.toTx[0] == EofAck()
    ensures Reaches(cfg, src, Sound(known), r, v) && !Lacking(v.rx, |src|) && Right(v.rx.disk.temp, src, known)
    ensures !Lacking(r.rx, |src|) ==> v == r
    ensures Reaches(cfg, src, Sound(known), v, t)
    ensures Passes(v.rx.disk.temp, src) ==> Through(t, v.rx.disk.temp)
  {
    hide Reaches, Invariant, SoundInvariant, Lacking, Waits, Serving, Able, Separated, Total, Right, Tidy;
    var c := Sound(known);
    AbleFacts(cfg, src);
    Restart(cfg, src, c, s, r);
    Lists(cfg, src, c, r, r);
    NR.TotalWithin(r.rx.chunks, |src|);
    v := Repairing(cfg, src, c, r, r);
    HoldsSource(cfg, src, known, r, v);
    Reached(cfg, src, c, r, v);
    Restart(cfg, src, c, r, v);
    t := v;
    if Passes(v.rx.disk.temp, src) {
      var b := Retaining(cfg, src, c, v, v);
      AwaitsHere(v.tx, src);
      var d, k := Deleting(cfg, src, c, v, b);
      t := Closing(cfg, src, c, v, d, k);
    }
    Reached(cfg, src, c, v, t);
  }

  lemma AwaitsHere(st: Tx.Tx, src: seq<uint8>)
    requires Serving(st, src)
    ensures Awaiting(st, |src|)
  {
    hide Awaiting, TR.Ranged;
  }

  // A transfer that has just been started at both ends.
  ghost predicate Begins(cfg: Config, src: seq<uint8>, s: System) {
    && Fresh(s.tx, src) && s.tx.srcLen < cfg.nameMax && s.tx.dstLen < cfg.nameMax
    && Blank(s.rx) && !s.rx.flags.mdRecv && s.toRx == [] && s.toTx == []
  }

  // The packets that arrive in the first pass.
  function FirstPass(cfg: Config, src: seq<uint8>, st: Tx.Tx, picks: seq<nat>): seq<Packet>
    requires 0 < cfg.chunkSize && forall i :: 0 <= i < |picks| ==> picks[i] < |DataOf(src, cfg.chunkSize, 0)|
  {
    [MdOf(src, st.com.closeReq, st.srcLen, st.dstLen)] + Picked(src, cfg.chunkSize, picks) + [EofOf(src)]
  }

  // Asking for data touches no file.
  lemma AskLeaves(cfg: Config, st: Rx.Rx, env: Rx.Env)
    requires 0 < st.cap && Separated(st.chunks) && 0 < cfg.crcBlock && st.data.sub.Rank() < 2
    requires Rx.Tick(cfg, st, env).rx.data.sub.Rank() < 2
    ensures Rx.Tick(cfg, st, env).rx.disk == st.disk
    ensures Rx.Tick(cfg, st, env).rx.data.cachedPos == st.data.cachedPos
  {
    hide Rx.InactivityTick, Rx.AckTimerTick, Rx.CheckState, Rx.Maintain, Separated;
    var b := Rx.AckTimerTick(Rx.InactivityTick(st));
    RR.TimersTimed(st);
    AskCheckLeaves(cfg, b, env);
    RR.MaintainQuiet(cfg, Rx.TickState(cfg, st, env), env.bufOk);
  }

  lemma AskCheckLeaves(cfg: Config, st: Rx.Rx, env: Rx.Env)
    requires Separated(st.chunks) && 0 < cfg.crcBlock && st.data.sub.Rank() < 2
    ensures var t := Rx.CheckState(cfg, st, env);
            t.data.sub.Rank() < 2 ==> t.disk == st.disk && t.data.cachedPos == st.data.cachedPos
  {
    hide Separated, Rx.CheckComplete;
  }

  // The bytes a list remembers.
  ghost function Remembered(s: seq<Chunk>): iset<int> { iset x: int | Covers(s, x) }

  // Every file, the empty one included, both chunk lists as they were handed out but
  // for entries behind the end of the file, every choice of data PDUs that arrive in the
  // first pass, in any order and any number of times, the others lost: from the start
  // some run in which just these arrive leads on to a state in which nothing is missing;
  // then every byte the receiver's list did not remember at the start is right, and if
  // the file passes, the run goes on to the file retained, the source deleted and both
  // ends held over without error. With an empty list the file is the source.
  lemma Delivers(cfg: Config, src: seq<uint8>, s: System, picks: seq<nat>) returns (u: System, v: System, t: System)
    requires Able(cfg, src) && Initial(cfg, src, s) && Begins(cfg, src, s) && Tidy(s, src)
    requires forall i :: 0 <= i < |picks| ==> picks[i] < |DataOf(src, cfg.chunkSize, 0)|
    ensures var c := Sound(Remembered(s.rx.chunks));
            && Reaches(cfg, src, c, s, u) && Reaches(cfg, src, c, u, v) && Reaches(cfg, src, c, v, t)
            && Right(v.rx.disk.temp, src, c.known)
    ensures u.toRx == Pass(cfg, src, s.tx) && 0 < s.rx.cap && AllAcceptable(FirstPass(cfg, src, s.tx, picks))
    ensures u.rx == RR.Arrivals(cfg, s.rx, FirstPass(cfg, src, s.tx, picks), RxGood(|src|))
    ensures !Lacking(v.rx, |src|) && (!Lacking(u.rx, |src|) ==> v.rx.disk.temp == u.rx.disk.temp)
    ensures Passes(v.rx.disk.temp, src) ==> Through(t, v.rx.disk.temp)
    ensures s.rx.chunks == [] ==> Through(t, src)
  {
    hide At, Reaches, Initial, Fresh, Sized, Serving, Awaiting, Able, Rx.Recv, Rx.Tick, DataOf, RR.Arrivals, Pass;
    hide Picked;
    hide Waits, Eofed, Checksum, Receiver, WellFormed, Separated, MdOf, EofOf, Tidy, Lacking, Right, Reckoned;
    var known := Remembered(s.rx.chunks);
    var c := Sound(known);
    AbleFacts(cfg, src);
    AllKnown(s.rx.chunks);
    Stays(cfg, src, c, s);
    var sent := Sending(cfg, src, c, s);
    PassIndices(cfg, src, s.tx);
    u := FirstArrivals(cfg, src, c, s, sent, picks);
    Reached(cfg, src, c, s, u);
    Restart(cfg, src, c, s, u);
    LongTimers(cfg, src, u.rx);
    Lists(cfg, src, c, u, u);
    AnswersEof(cfg, u.rx, src);
    FillingRank(Rx.Tick(cfg, u.rx, RxGood(|src|)).rx, src, u.rx.inactTimer - 1);
    AskLeaves(cfg, u.rx, RxGood(|src|));
    var w := WakeRx(cfg, src, c, u, u, RxGood(|src|));
    Lists(cfg, src, c, u, w);
    AfterEof(cfg, src, u.rx, w.rx);
    ServesHere(w.tx, src);
    v, t := DeliversFrom(cfg, src, known, u, w);
    Reached(cfg, src, c, u, w);
    Joined(cfg, src, c, u, w, v);
    if !Lacking(u.rx, |src|) {
      if Lacking(w.rx, |src|) {
        StillLacking(w.rx, u.rx, |src|);
      }
    }
    if s.rx.chunks == [] {
      RightIsSource(v.rx.disk.temp, src, known);
    }
  }

  lemma AllKnown(s: seq<Chunk>)
    ensures Reckoned(s, Remembered(s)) && (s == [] ==> forall x :: x !in Remembered(s))
  {
  }

  lemma FillingRank(st: Rx.Rx, src: seq<uint8>, k: nat)
    requires Filling(st, src, k)
    ensures st.data.sub == Rx.DataEof
  {
  }

  lemma ServesHere(st: Tx.Tx, src: seq<uint8>)
    requires Awaiting(st, |src|) && TR.Ranged(st, src, |src|) && TR.Positioned(st)
    ensures Serving(st, src)
  {
    hide Awaiting, TR.Ranged;
  }

  lemma FirstArrivals(cfg: Config, src: seq<uint8>, c: Course, s: System, sent: System, picks: seq<nat>)
    returns (u: System)
    requires Able(cfg, src) && Begins(cfg, src, s) && At(cfg, src, c, s, sent)
    requires sent == s.(tx := sent.tx, toRx := Pass(cfg, src, s.tx))
    requires forall i :: 0 <= i < |picks| ==> picks[i] < |DataOf(src, cfg.chunkSize, 0)|
    ensures At(cfg, src, c, s, u) && u == sent.(rx := u.rx) && 0 < s.rx.cap
    ensures AllAcceptable(FirstPass(cfg, src, s.tx, picks))
    ensures u.rx == RR.Arrivals(cfg, s.rx, FirstPass(cfg, src, s.tx, picks), RxGood(|src|))
    ensures Eofed(u.rx, src, cfg.inactTicks) && u.rx.data.sub == Rx.DataNormal && u.rx.flags.eofAckCount == 0
    ensures !u.rx.flags.sendNak && !u.rx.com.ackArmed
  {
    hide At, Fresh, Sized, Able, Rx.Recv, DataOf, RR.Arrivals, Pass, Picked, Eofed, Checksum, WellFormed, MdOf, EofOf;
    AbleFacts(cfg, src);
    PassIndices(cfg, src, s.tx);
    var a := Take(cfg, src, c, s, sent, 0, RxGood(|src|));
    TakesMetadata(cfg, s.rx, src, s.tx.com.closeReq, s.tx.srcLen, s.tx.dstLen, RxGood(|src|));
    var b := Taking(cfg, src, c, s, a, picks);
    u := Take(cfg, src, c, s, b, |sent.toRx| - 1, RxGood(|src|));
    TakesEof(cfg, b.rx, src, RxGood(|src|));
    InOnePass(cfg, s.rx, sent.toRx[0], Picked(src, cfg.chunkSize, picks), sent.toRx[|sent.toRx| - 1], RxGood(|src|));
  }

  lemma PassIndices(cfg: Config, src: seq<uint8>, st: Tx.Tx)
    requires 0 < cfg.chunkSize
    ensures var ps := Pass(cfg, src, st);
            var ds := DataOf(src, cfg.chunkSize, 0);
            && |ps| == |ds| + 2 && ps[0] == MdOf(src, st.com.closeReq, st.srcLen, st.dstLen)
            && ps[|ps| - 1] == EofOf(src) && forall k :: 0 <= k < |ds| ==> ps[k + 1] == ds[k]
  {
    hide DataOf, Checksum;
  }

  lemma LongTimers(cfg: Config, src: seq<uint8>, st: Rx.Rx)
    requires Able(cfg, src) && Eofed(st, src, cfg.inactTicks)
    ensures Eofed(st, src, 1) && Eofed(st, src, Patience(cfg, |src|) + 1) && 1 <= st.inactTimer
  {
    hide RC.CeilDiv, Checksum;
  }

  lemma AfterEof(cfg: Config, src: seq<uint8>, was: Rx.Rx, st: Rx.Rx)
    requires Able(cfg, src) && Eofed(was, src, cfg.inactTicks)
    requires Filling(st, src, was.inactTimer - 1) && st.data.acknak == 0 && !st.com.ackArmed
    ensures Waits(cfg, st, src)
  {
    hide RC.CeilDiv, Checksum;
  }

  // One packet, then others, then one more.
  lemma InOnePass(cfg: Config, st: Rx.Rx, first: Packet, others: seq<Packet>, last: Packet, env: Rx.Env)
    requires 0 < st.cap && Rx.Acceptable(first.pdu) && AllAcceptable(others) && Rx.Acceptable(last.pdu)
    ensures AllAcceptable([first] + others + [last])
    ensures var a := Rx.Recv(cfg, st, first, env);
            && 0 < a.cap
            && var b := RR.Arrivals(cfg, a, others, env);
               && 0 < b.cap
               && RR.Arrivals(cfg, st, [first] + others + [last], env) == Rx.Recv(cfg, b, last, env)
  {
    hide Rx.Recv, Add;
    RR.RecvHandles(cfg, st, first, env);
    assert [first] + others + [last] == [first] + (others + [last]);
    assert ([first] + (others + [last]))[1..] == others + [last];
    LastArrival(cfg, Rx.Recv(cfg, st, first, env), others, last, env);
  }

  lemma {:induction false} LastArrival(cfg: Config, st: Rx.Rx, others: seq<Packet>, last: Packet, env: Rx.Env)
    requires 0 < st.cap && AllAcceptable(others) && Rx.Acceptable(last.pdu)
    ensures AllAcceptable(others + [last])
    ensures var b := RR.Arrivals(cfg, st, others, env);
            0 < b.cap && RR.Arrivals(cfg, st, others + [last], env) == Rx.Recv(cfg, b, last, env)
    decreases |others|
  {
    hide Rx.Recv, Add;
    if others == [] {
      assert others + [last] == [last] && [last][1..] == [];
    } else {
      RR.RecvHandles(cfg, st, others[0], env);
      assert (others + [last])[1..] == others[1..] + [last];
      LastArrival(cfg, Rx.Recv(cfg, st, others[0], env), others[1..], last, env);
    }
  }

  // A freshly started sender and a freshly set up receiver are such a start, with any
  // chunk lists that have room and no entry behind the end of the file.
  lemma StartBegins(cfg: Config, src: seq<uint8>, cmdTx: bool, txList: Handed, rxList: Handed, srcLen: nat, dstLen: nat,
                    previous: Option<seq<uint8>>)
    requires Able(cfg, src) && txList.Proper() && rxList.Proper() && 1 < rxList.cap && srcLen < cfg.nameMax
    requires dstLen < cfg.nameMax
    ensures var s := Started(cfg, src, cmdTx, txList, rxList, srcLen, dstLen, previous);
            && Begins(cfg, src, s) && Initial(cfg, src, s) && s.rx.chunks == rxList.chunks && s.rx.cap == rxList.cap
            && (NR.Within(txList.chunks, |src|) && NR.Within(rxList.chunks, |src|) ==> Tidy(s, src))
  {
    hide RC.CeilDiv, WellFormed;
    assert src[..0] == [];
    assert Usable(Some(rxList));
  }

  function Started(cfg: Config, src: seq<uint8>, cmdTx: bool, txList: Handed, rxList: Handed, srcLen: nat, dstLen: nat,
                   previous: Option<seq<uint8>>): System
  {
    System(Tx.Start(cfg, true, false, cmdTx, |src|, txList, ST_NO_ERROR, srcLen, dstLen),
           Rx.Setup(cfg, false, Some(rxList), ST_NO_ERROR, true, previous), [], [])
  }
}
