/** How a receiver takes the FIN-ACK, answers EOFs, puts off its NAK, ends after an error and is recycled. */
module RxAnswers {
  import opened Cfdp
  import opened Crc
  import opened ChunkSpec
  import opened RxSpec
  import opened RxRuns
  import opened RxRetries
  import opened RxReports

  // ---------- the FIN-ACK ----------

  // A FIN-ACK that the transaction takes: of class 2, once the file is disposed of.
  predicate TakesFinAck(st: Rx, e: Event) {
    && e.Arrive? && e.pkt.pdu.Ack? && e.pkt.pdu.directive == DIR_FIN && !e.pkt.unacknowledged
    && st.Active() && st.reliable && Disposed(st)
  }

  // The metadata it takes last settle whether closure is requested.
  predicate TakesMetadata(st: Rx, e: Event) {
    && e.Arrive? && e.pkt.pdu.Metadata? && e.pkt.unacknowledged != st.reliable
    && st.Active() && st.data.sub.Rank() <= 1 && !st.flags.mdRecv
  }

  // An EOF it takes: in holdover too.
  predicate TakesEof(st: Rx, e: Event) {
    && e.Arrive? && e.pkt.pdu.Eof? && e.pkt.unacknowledged != st.reliable
    && (!st.Active() || st.reliable || st.data.sub.Rank() <= 1)
  }

  // What is noted of the PDUs that come in, and of nothing else.
  ghost predicate Hears(cfg: Config, st: Rx, e: Event, t: Rx) {
    && (t.flags.finAckRecv <==> st.flags.finAckRecv || TakesFinAck(st, e))
    && t.com.closeReq == (if TakesMetadata(st, e) then e.pkt.pdu.closeReq else st.com.closeReq)
    && t.fsize == (if TakesMetadata(st, e) then e.pkt.pdu.size else st.fsize)
    && (t.flags.mdRecv <==>
          st.flags.mdRecv || (TakesMetadata(st, e) && e.pkt.pdu.srcLen < cfg.nameMax && e.pkt.pdu.dstLen < cfg.nameMax))
    && t.flags.eofCount == (if TakesEof(st, e) && st.flags.eofCount < cfg.ackLimit then st.flags.eofCount + 1
                            else st.flags.eofCount)
  }

  lemma ArriveHears(cfg: Config, st: Rx, pkt: Packet, env: Env)
    requires Steady(cfg, st) && Acceptable(pkt.pdu)
    ensures Hears(cfg, st, Arrive(pkt, env), Recv(cfg, st, pkt, env))
  {
    hide Handle, RecvEof, Separated, Hears;
    var e := Arrive(pkt, env);
    if pkt.unacknowledged != st.reliable && st.Active() {
      HandleHears(cfg, st, pkt, env);
      SameNotes(cfg, st, e, Handle(cfg, st, pkt.pdu, env), Recv(cfg, st, pkt, env));
    } else {
      if pkt.pdu.Eof? {
        EofHears(cfg, st, pkt.pdu.cc, pkt.pdu.crc, pkt.pdu.size);
      }
      IdleHears(cfg, st, e, Recv(cfg, st, pkt, env));
    }
  }

  lemma SameNotes(cfg: Config, st: Rx, e: Event, a: Rx, t: Rx)
    requires Hears(cfg, st, e, a) && t.flags == a.flags && t.fsize == a.fsize && t.com.closeReq == a.com.closeReq
    ensures Hears(cfg, st, e, t)
  {
  }

  lemma IdleHears(cfg: Config, st: Rx, e: Event, t: Rx)
    requires e.Arrive? && (e.pkt.unacknowledged == st.reliable || !st.Active())
    requires t.flags == st.flags.(eofCount := if TakesEof(st, e) then CountUp(cfg, st.flags.eofCount).1
                                              else st.flags.eofCount)
    requires t.fsize == st.fsize && t.com.closeReq == st.com.closeReq
    ensures Hears(cfg, st, e, t)
  {
  }

  lemma HandleHears(cfg: Config, st: Rx, pkt: Packet, env: Env)
    requires 0 < st.cap && Acceptable(pkt.pdu) && st.Active() && pkt.unacknowledged != st.reliable
    ensures Hears(cfg, st, Arrive(pkt, env), Handle(cfg, st, pkt.pdu, env))
  {
    hide ProcessFd, RecvEof;
    if pkt.pdu.FileData? {
      DataHears(st, pkt.pdu.offset, pkt.pdu.data, env);
    } else if pkt.pdu.Eof? {
      EofHears(cfg, st, pkt.pdu.cc, pkt.pdu.crc, pkt.pdu.size);
    }
  }

  lemma DataHears(st: Rx, off: nat, data: seq<uint8>, env: Env)
    requires 0 < st.cap
    ensures var t := ProcessFd(st, off, data, env);
            t.flags == st.flags && t.com == st.com && t.fsize == st.fsize
  {
    hide Add, WriteAt;
  }

  lemma EofHears(cfg: Config, st: Rx, cc: nat, crc: nat, size: nat)
    ensures var t := RecvEof(cfg, st, cc, crc, size);
            && t.flags == st.flags.(eofCount := CountUp(cfg, st.flags.eofCount).1)
            && t.com == st.com && t.fsize == st.fsize
  {
    EofCounts(cfg, st, cc, crc, size);
    EofKeepsCommon(cfg, st, cc, crc, size);
    hide RecvEof;
  }

  lemma EofKeepsCommon(cfg: Config, st: Rx, cc: nat, crc: nat, size: nat)
    ensures RecvEof(cfg, st, cc, crc, size).com == st.com && RecvEof(cfg, st, cc, crc, size).fsize == st.fsize
  {
  }

  // In one step of any kind.
  lemma StepHears(cfg: Config, st: Rx, e: Event)
    requires Steady(cfg, st) && ValidEvent(e)
    ensures Hears(cfg, st, e, Step(cfg, st, e))
  {
    hide Recv, Tick, Separated;
    match e {
      case Arrive(pkt, env) => ArriveHears(cfg, st, pkt, env);
      case Wakeup(env) =>
        TickKeepsNotes(cfg, st, env);
        TickCounts(cfg, st, env);
      case _ =>
    }
  }

  lemma TickCounts(cfg: Config, st: Rx, env: Env)
    requires Steady(cfg, st)
    ensures Separated(st.chunks)
    ensures Tick(cfg, st, env).rx.flags.eofCount == st.flags.eofCount
  {
    hide InactivityTick, AckTimerTick, CheckState, Maintain, Separated;
    ListSound(cfg, st);
    TimersTimed(st);
    if st.Active() {
      CheckCounts(cfg, AckTimerTick(InactivityTick(st)), env);
    }
    MaintainQuiet(cfg, TickState(cfg, st, env), env.bufOk);
  }

  // A FIN-ACK came in some step of the run.
  ghost predicate Acknowledged(cfg: Config, st: Rx, es: seq<Event>)
    requires Steady(cfg, st) && AllValid(es)
  {
    exists k :: 0 <= k < |es| && TakesFinAck(Run(cfg, st, es[..k]), es[k])
  }

  lemma AcknowledgedNext(cfg: Config, st: Rx, es: seq<Event>)
    requires Steady(cfg, st) && AllValid(es) && es != []
    ensures var front, e := es[..|es| - 1], es[|es| - 1];
            Acknowledged(cfg, st, es) <==> Acknowledged(cfg, st, front) || TakesFinAck(Run(cfg, st, front), e)
  {
    hide Run, TakesFinAck, Steady;
    var front := es[..|es| - 1];
    assert forall k :: 0 <= k < |front| ==> front[..k] == es[..k] && front[k] == es[k];
  }

  lemma {:induction false} RunHears(cfg: Config, st: Rx, es: seq<Event>)
    requires Steady(cfg, st) && AllValid(es)
    ensures Run(cfg, st, es).flags.finAckRecv <==> st.flags.finAckRecv || Acknowledged(cfg, st, es)
    decreases |es|
  {
    if es != [] {
      hide Step, Acknowledged, TakesFinAck;
      RunHears(cfg, st, es[..|es| - 1]);
      StepHears(cfg, Run(cfg, st, es[..|es| - 1]), es[|es| - 1]);
      AcknowledgedNext(cfg, st, es);
    }
  }

  // It waits for the FIN-ACK: its FIN is out, and neither the retry limit nor the
  // inactivity timer ends the wait in the next wakeup.
  predicate AwaitsAck(cfg: Config, st: Rx) {
    && st.phase == R2 && st.reliable && st.data.sub == FinAck && !st.flags.sendFin
    && !st.com.inactFired && st.inactTimer != 0
    && ((st.com.ackArmed && st.ackTimer != 0) || st.data.acknak < cfg.ackLimit)
  }

  lemma AckCheck(cfg: Config, st: Rx, env: Env)
    requires Separated(st.chunks) && 0 < cfg.crcBlock && st.phase == R2 && st.reliable && st.data.sub == FinAck
    requires !st.flags.sendFin && !st.com.inactFired && (st.com.ackArmed || st.data.acknak < cfg.ackLimit)
    ensures CheckState(cfg, st, env).phase == Hold <==> st.flags.finAckRecv
  {
    hide Separated;
  }

  lemma AckTick(cfg: Config, st: Rx, env: Env)
    requires Steady(cfg, st) && AwaitsAck(cfg, st)
    ensures Separated(st.chunks)
    ensures Tick(cfg, st, env).rx.phase == Hold <==> st.flags.finAckRecv
  {
    hide CheckState, Maintain, Separated;
    ListSound(cfg, st);
    var b := AckTimerTick(InactivityTick(st));
    TimersTimed(st);
    AckCheck(cfg, b, env);
    MaintainQuiet(cfg, TickState(cfg, st, env), env.bufOk);
  }

  // Over every run of a new transaction: while it waits for the FIN-ACK, the next wakeup
  // holds it over if and only if one has arrived.
  lemma HeldOverIff(cfg: Config, unack: bool, list: Option<Handed>, stale: Status, createOk: bool,
                    previous: Option<seq<uint8>>, es: seq<Event>, env: Env)
    requires Usable(list) && 0 < cfg.crcBlock && AllValid(es)
    ensures var start := Setup(cfg, unack, list, stale, createOk, previous);
            && Steady(cfg, start)
            && var st := Run(cfg, start, es);
               AwaitsAck(cfg, st) ==> (Tick(cfg, st, env).rx.phase == Hold <==> Acknowledged(cfg, start, es))
  {
    hide Tick, Run, Setup, Acknowledged, AwaitsAck;
    var start := Setup(cfg, unack, list, stale, createOk, previous);
    SetupAccounts(cfg, unack, list, stale, createOk, previous);
    RunHears(cfg, start, es);
    StillSteady(cfg, start, es);
    if AwaitsAck(cfg, Run(cfg, start, es)) {
      AckTick(cfg, Run(cfg, start, es), env);
    }
  }

  lemma StillSteady(cfg: Config, st: Rx, es: seq<Event>)
    requires Steady(cfg, st) && AllValid(es)
    ensures Steady(cfg, Run(cfg, st, es))
  {
  }

  // ---------- nothing is sent after it ----------

  // Acknowledged with the FIN out, or held over with none due.
  ghost predicate Finished(st: Rx) {
    && !st.flags.sendFin
    && (st.Active() ==> st.phase == R2 && st.reliable && st.data.sub == FinAck && st.flags.finAckRecv)
  }

  lemma FinAckTaken(cfg: Config, st: Rx, cc: nat, status: nat, env: Env)
    requires Steady(cfg, st) && st.phase == R2 && st.reliable && st.data.sub == FinAck && !st.flags.sendFin
    ensures Finished(Recv(cfg, st, Packet(false, Ack(DIR_FIN, cc, status)), env))
  {
    hide Separated;
  }

  lemma FinishedCheck(cfg: Config, st: Rx, env: Env)
    requires Separated(st.chunks) && 0 < cfg.crcBlock && Finished(st) && st.Active()
    ensures var t := CheckState(cfg, st, env);
            Finished(t) && t.phase == Hold
  {
    hide Separated;
  }

  lemma FinishedTick(cfg: Config, st: Rx, env: Env)
    requires Steady(cfg, st) && Finished(st)
    ensures Separated(st.chunks)
    ensures var r := Tick(cfg, st, env);
            && Finished(r.rx) && r.rx.phase == Hold
            && (r.rx.data.sub == Complete <==> st.Active() || st.data.sub == Complete)
            && forall p :: p in r.sent ==> !p.pdu.Fin?
  {
    hide InactivityTick, AckTimerTick, CheckState, Maintain, Separated;
    ListSound(cfg, st);
    var b := AckTimerTick(InactivityTick(st));
    TimersTimed(st);
    if st.Active() {
      FinishedCheck(cfg, b, env);
      CheckStateAdvances(cfg, b, env);
    }
    var c := TickState(cfg, st, env);
    MaintainQuiet(cfg, c, env.bufOk);
    NoFinDue(cfg, c, env.bufOk);
  }

  lemma NoFinDue(cfg: Config, st: Rx, bufOk: bool)
    requires 0 < st.cap && Separated(st.chunks) && !st.flags.sendFin
    ensures var (t, sent) := Maintain(cfg, st, bufOk);
            !t.flags.sendFin && forall p :: p in sent ==> !p.pdu.Fin?
  {
    hide Separated, NakGaps, NakSegs;
  }

  lemma StepFinished(cfg: Config, st: Rx, e: Event)
    requires Steady(cfg, st) && ValidEvent(e) && Finished(st)
    ensures Finished(Step(cfg, st, e)) && (e.Wakeup? || !st.Active() ==> !Step(cfg, st, e).Active())
  {
    hide Recv, Tick, Separated;
    match e {
      case Arrive(pkt, env) =>
        RecvHandles(cfg, st, pkt, env);
        ArriveHears(cfg, st, pkt, env);
      case Wakeup(env) => FinishedTick(cfg, st, env);
      case _ =>
    }
  }

  // An R2 transaction in FINACK whose FIN is out and that gets the FIN-ACK: whatever
  // comes after, in every run it sends no further FIN, and the first wakeup holds it
  // over, for good.
  lemma {:induction false} NoMoreFins(cfg: Config, st: Rx, es: seq<Event>, env: Env)
    requires Steady(cfg, st) && AllValid(es) && Finished(st)
    ensures Steady(cfg, Run(cfg, st, es)) && Finished(Run(cfg, st, es))
    ensures (exists k :: 0 <= k < |es| && es[k].Wakeup?) ==> !Run(cfg, st, es).Active()
    ensures var r := Tick(cfg, Run(cfg, st, es), env);
            r.rx.phase == Hold && forall p :: p in r.sent ==> !p.pdu.Fin?
    decreases |es|
  {
    hide Step, Tick, Finished;
    if es != [] {
      NoMoreFins(cfg, st, es[..|es| - 1], env);
      StepFinished(cfg, Run(cfg, st, es[..|es| - 1]), es[|es| - 1]);
    }
    StillSteady(cfg, st, es);
    FinishedTick(cfg, Run(cfg, st, es), env);
  }

  lemma FinAckEnds(cfg: Config, st: Rx, cc: nat, status: nat, arrival: Env, es: seq<Event>, env: Env)
    requires Steady(cfg, st) && AllValid(es) && st.phase == R2 && st.reliable && st.data.sub == FinAck
    requires !st.flags.sendFin
    ensures var a := Recv(cfg, st, Packet(false, Ack(DIR_FIN, cc, status)), arrival);
            && Steady(cfg, a)
            && var r := Tick(cfg, Run(cfg, a, es), env);
               r.rx.phase == Hold && forall p :: p in r.sent ==> !p.pdu.Fin?
  {
    hide Recv, Tick, Run, Finished, WellFormed;
    var pkt := Packet(false, Ack(DIR_FIN, cc, status));
    FinAckTaken(cfg, st, cc, status, arrival);
    StepKeepsChunks(cfg, st, Arrive(pkt, arrival));
    NoMoreFins(cfg, Recv(cfg, st, pkt, arrival), es, env);
  }

  // ---------- the last words of class 1 ----------

  // The FIN of a class 1 transaction goes out once: with a buffer and nothing else due
  // it leaves in the wakeup that disposes of the file, and the next one holds it over.
  lemma ClosureIff(cfg: Config, st: Rx, env: Env)
    requires Steady(cfg, st) && st.phase == R1 && !st.reliable && st.data.sub == FileStore
    requires !st.flags.sendFin && !st.flags.sendNak && env.bufOk
    ensures Separated(st.chunks)
    ensures var r := Tick(cfg, st, env);
            && ((exists p :: p in r.sent && p.pdu.Fin?) <==> st.com.closeReq)
            && (r.rx.phase == Hold <==> !st.com.closeReq) && !r.rx.flags.sendFin
            && (st.com.closeReq ==> r.rx.phase == R1 && !r.rx.reliable && r.rx.data.sub == FinAck)
  {
    hide TickState, Maintain, Separated, Told, Keeps;
    ListSound(cfg, st);
    ClosureState(cfg, st, env);
    var c := TickState(cfg, st, env);
    MaintainQuiet(cfg, c, true);
    FinOut(cfg, c);
  }

  lemma ClosureState(cfg: Config, st: Rx, env: Env)
    requires Steady(cfg, st) && st.phase == R1 && !st.reliable && st.data.sub == FileStore
    requires !st.flags.sendFin && !st.flags.sendNak
    ensures Separated(st.chunks)
    ensures var c := TickState(cfg, st, env);
            && !c.reliable && !c.flags.sendNak && (c.flags.sendFin <==> st.com.closeReq)
            && (if st.com.closeReq then c.phase == R1 && c.data.sub == FinAck else c.phase == Hold)
  {
    hide InactivityTick, AckTimerTick, CheckState, Separated, Told;
    ListSound(cfg, st);
    var b := AckTimerTick(InactivityTick(st));
    TimersTimed(st);
    StoreCheck(cfg, b, env);
    CheckStateReliable(cfg, b, env);
    StoreAsksNothing(cfg, b, env);
  }

  lemma StoreAsksNothing(cfg: Config, st: Rx, env: Env)
    requires Separated(st.chunks) && 0 < cfg.crcBlock && st.data.sub == FileStore && !st.flags.sendNak
    ensures !CheckState(cfg, st, env).flags.sendNak
  {
    hide HandleFileRetention, Separated;
    StoreTellsFlags(st, env);
  }

  lemma StoreTellsFlags(st: Rx, env: Env)
    ensures HandleFileRetention(st, env).flags == st.flags
  {
  }

  lemma FinOut(cfg: Config, st: Rx)
    requires 0 < st.cap && Separated(st.chunks) && !st.reliable && !st.flags.sendNak
    ensures var (t, sent) := Maintain(cfg, st, true);
            !t.flags.sendFin && ((exists p :: p in sent && p.pdu.Fin?) <==> st.flags.sendFin)
  {
    hide Separated, ToConditionCode;
    var (t, sent) := Maintain(cfg, st, true);
    if st.flags.sendFin {
      assert sent[0].pdu.Fin?;
    }
  }

  lemma ClosureHolds(cfg: Config, st: Rx, env: Env)
    requires Steady(cfg, st) && st.phase == R1 && !st.reliable && st.data.sub == FinAck && !st.flags.sendFin
    ensures Separated(st.chunks)
    ensures var r := Tick(cfg, st, env);
            r.rx.phase == Hold && forall p :: p in r.sent ==> !p.pdu.Fin?
  {
    hide InactivityTick, AckTimerTick, CheckState, Maintain, Separated;
    ListSound(cfg, st);
    var b := AckTimerTick(InactivityTick(st));
    TimersTimed(st);
    LastCheck(cfg, b, env);
    var c := TickState(cfg, st, env);
    MaintainQuiet(cfg, c, env.bufOk);
    NoFinDue(cfg, c, env.bufOk);
  }

  lemma LastCheck(cfg: Config, st: Rx, env: Env)
    requires Separated(st.chunks) && 0 < cfg.crcBlock && !st.reliable && st.data.sub == FinAck && !st.flags.sendFin
    ensures var t := CheckState(cfg, st, env);
            t.phase == Hold && !t.flags.sendFin
  {
    hide Separated;
  }

  // ---------- acknowledging EOFs ----------

  // An ACK of a receiver names the EOF and its first condition code, and says whether
  // the transaction is still active; the header says class 2 exactly then.
  predicate AnswersEof(p: Packet, cc: nat) {
    && p.pdu.Ack? && p.pdu.directive == DIR_EOF && p.pdu.cc == cc
    && p.pdu.status == (if p.unacknowledged then ACK_STATUS_TERMINATED else ACK_STATUS_ACTIVE)
  }

  // The first EOF leaves its fields, and its code as the status of a clean transaction.
  lemma FirstEofNoted(cfg: Config, st: Rx, e: Event)
    requires Steady(cfg, st) && ValidEvent(e) && TakesEof(st, e) && st.flags.eofCount == 0
    ensures var t := Step(cfg, st, e);
            && t.data.peerCc == e.pkt.pdu.cc && t.data.eofCrc == e.pkt.pdu.crc && t.data.eofSize == e.pkt.pdu.size
            && t.reliable == st.reliable && t.phase == st.phase
            && t.status == (if !st.Ok() then st.status
                            else if IsError(e.pkt.pdu.cc) || 0 < cfg.ackLimit then e.pkt.pdu.cc
                            else ST_POS_ACK_LIMIT_REACHED)
            && (0 < cfg.ackLimit ==> t.flags.eofCount == 1)
  {
    hide Separated, RecvEof;
    FirstEof(cfg, st, e.pkt.pdu.cc, e.pkt.pdu.crc, e.pkt.pdu.size);
  }

  lemma FirstEof(cfg: Config, st: Rx, cc: nat, crc: nat, size: nat)
    requires st.flags.eofCount == 0
    ensures var t := RecvEof(cfg, st, cc, crc, size);
            && t.data.peerCc == cc && t.data.eofCrc == crc && t.data.eofSize == size
            && t.reliable == st.reliable && t.phase == st.phase
            && t.status == (if !st.Ok() then st.status
                            else if IsError(cc) || 0 < cfg.ackLimit then cc else ST_POS_ACK_LIMIT_REACHED)
            && (0 < cfg.ackLimit ==> t.flags.eofCount == 1)
  {
  }

  // A class 2 transaction that took an EOF with this code first.
  ghost predicate Heard(st: Rx, cc: nat) {
    st.reliable && st.flags.eofCount != 0 && st.data.peerCc == cc && (st.Active() ==> st.phase == R2)
  }

  lemma ArriveKeepsPeer(cfg: Config, st: Rx, pkt: Packet, env: Env)
    requires 0 < st.cap && Acceptable(pkt.pdu) && st.flags.eofCount != 0
    ensures Recv(cfg, st, pkt, env).data.peerCc == st.data.peerCc
  {
    hide ProcessFd, RecvEof;
    if pkt.pdu.FileData? {
      DataKeepsPeer(st, pkt.pdu.offset, pkt.pdu.data, env);
    } else if pkt.pdu.Eof? {
      LaterEof(cfg, st, pkt.pdu.cc, pkt.pdu.crc, pkt.pdu.size);
    }
  }

  lemma DataKeepsPeer(st: Rx, off: nat, data: seq<uint8>, env: Env)
    requires 0 < st.cap
    ensures ProcessFd(st, off, data, env).data.peerCc == st.data.peerCc
  {
    hide Add, WriteAt;
  }

  lemma LaterEof(cfg: Config, st: Rx, cc: nat, crc: nat, size: nat)
    requires st.flags.eofCount != 0
    ensures var t := RecvEof(cfg, st, cc, crc, size);
            && t.data == st.data
            && t.status == if st.Ok() && cfg.ackLimit <= st.flags.eofCount then ST_POS_ACK_LIMIT_REACHED else st.status
  {
  }

  lemma TickHeard(cfg: Config, st: Rx, env: Env, cc: nat)
    requires Steady(cfg, st) && Heard(st, cc)
    ensures Separated(st.chunks)
    ensures var r := Tick(cfg, st, env);
            Heard(r.rx, cc) && forall p :: p in r.sent && p.pdu.Ack? ==> AnswersEof(p, cc)
  {
    hide InactivityTick, AckTimerTick, CheckState, Maintain, Separated, AnswersEof;
    ListSound(cfg, st);
    var b := AckTimerTick(InactivityTick(st));
    TimersTimed(st);
    if st.Active() {
      CheckHeard(cfg, b, env, cc);
    }
    var c := TickState(cfg, st, env);
    MaintainQuiet(cfg, c, env.bufOk);
    MaintainHeard(cfg, c, env.bufOk, cc);
  }

  lemma CheckHeard(cfg: Config, st: Rx, env: Env, cc: nat)
    requires Separated(st.chunks) && 0 < cfg.crcBlock && Heard(st, cc)
    ensures Heard(CheckState(cfg, st, env), cc)
  {
    hide Check, Enter, Separated;
    var (a, next) := Check(cfg, st, env);
    CheckChecked(cfg, st, env);
    EnterEntered(cfg, a, next, env);
    CheckKeepsNotes(cfg, st, env);
  }

  lemma MaintainHeard(cfg: Config, st: Rx, bufOk: bool, cc: nat)
    requires 0 < st.cap && Separated(st.chunks) && Heard(st, cc)
    ensures forall p :: p in Maintain(cfg, st, bufOk).1 && p.pdu.Ack? ==> AnswersEof(p, cc)
  {
    hide Separated, NakGaps, NakSegs, ToConditionCode;
  }

  lemma StepHeard(cfg: Config, st: Rx, e: Event, cc: nat)
    requires Steady(cfg, st) && ValidEvent(e) && Heard(st, cc)
    ensures Heard(Step(cfg, st, e), cc)
  {
    hide Recv, Tick, Separated;
    match e {
      case Arrive(pkt, env) =>
        RecvHandles(cfg, st, pkt, env);
        ArriveKeepsPeer(cfg, st, pkt, env);
      case Wakeup(env) => TickHeard(cfg, st, env, cc);
      case _ =>
    }
  }

  // Over every run from the first EOF on, each ACK answers that EOF.
  lemma {:induction false} EofAcks(cfg: Config, st: Rx, es: seq<Event>, env: Env, cc: nat)
    requires Steady(cfg, st) && AllValid(es) && Heard(st, cc)
    ensures Steady(cfg, Run(cfg, st, es)) && Heard(Run(cfg, st, es), cc)
    ensures forall p :: p in Tick(cfg, Run(cfg, st, es), env).sent && p.pdu.Ack? ==> AnswersEof(p, cc)
    decreases |es|
  {
    hide Step, Tick, Heard, AnswersEof;
    if es != [] {
      EofAcks(cfg, st, es[..|es| - 1], env, cc);
      StepHeard(cfg, Run(cfg, st, es[..|es| - 1]), es[|es| - 1], cc);
    }
    StillSteady(cfg, st, es);
    TickHeard(cfg, Run(cfg, st, es), env, cc);
  }

  // An EOF not answered yet is answered by the next wakeup that has a buffer, in every
  // sub-state and in holdover.
  lemma EofAnswered(cfg: Config, st: Rx, env: Env)
    requires Steady(cfg, st) && Heard(st, st.data.peerCc) && st.flags.eofAckCount != st.flags.eofCount && env.bufOk
    ensures Separated(st.chunks)
    ensures var r := Tick(cfg, st, env);
            && r.rx.flags.eofAckCount == r.rx.flags.eofCount == st.flags.eofCount
            && |r.sent| == 1 && AnswersEof(r.sent[0], st.data.peerCc)
            && (r.sent[0].unacknowledged <==> !r.rx.Active())
  {
    hide InactivityTick, AckTimerTick, CheckState, Maintain, Separated;
    ListSound(cfg, st);
    var b := AckTimerTick(InactivityTick(st));
    TimersTimed(st);
    if st.Active() {
      CheckHeard(cfg, b, env, st.data.peerCc);
      CheckCounts(cfg, b, env);
    }
    AnswerSent(cfg, TickState(cfg, st, env));
  }

  lemma CheckCounts(cfg: Config, st: Rx, env: Env)
    requires Separated(st.chunks) && 0 < cfg.crcBlock
    ensures var t := CheckState(cfg, st, env).flags;
            t.eofCount == st.flags.eofCount && t.eofAckCount == st.flags.eofAckCount
  {
    hide Check, Enter, Separated;
    var (a, next) := Check(cfg, st, env);
    CheckChecked(cfg, st, env);
    EnterEntered(cfg, a, next, env);
  }

  lemma AnswerSent(cfg: Config, st: Rx)
    requires 0 < st.cap && Separated(st.chunks) && Heard(st, st.data.peerCc)
    requires st.flags.eofAckCount != st.flags.eofCount
    ensures var (t, sent) := Maintain(cfg, st, true);
            && t.flags.eofAckCount == t.flags.eofCount == st.flags.eofCount && t.phase == st.phase
            && |sent| == 1 && AnswersEof(sent[0], st.data.peerCc) && (sent[0].unacknowledged <==> !t.Active())
  {
    hide Separated;
  }

  // ---------- what each failure makes of the status ----------

  // An EOF that is not the first changes no field; above the limit it is an error.
  lemma LaterEofNoted(cfg: Config, st: Rx, e: Event)
    requires Steady(cfg, st) && ValidEvent(e) && TakesEof(st, e) && st.flags.eofCount != 0
    ensures var t := Step(cfg, st, e);
            && t.data == st.data
            && t.status == if st.Ok() && cfg.ackLimit <= st.flags.eofCount then ST_POS_ACK_LIMIT_REACHED else st.status
  {
    hide Separated, RecvEof;
    LaterEof(cfg, st, e.pkt.pdu.cc, e.pkt.pdu.crc, e.pkt.pdu.size);
  }

  // A cancel is an error of a clean transaction, once.
  lemma CancelNoted(cfg: Config, st: Rx)
    requires Steady(cfg, st) && !st.com.canceled
    ensures Separated(st.chunks)
    ensures var t := Step(cfg, st, CancelCmd);
            && t.com.canceled && t.disk == st.disk && t.data.sub == st.data.sub
            && t.status == if st.Ok() then ST_CANCEL_REQUEST_RECEIVED else st.status
  {
  }

  // The wakeup that finds the file complete: the checksum is begun only on a file of
  // the size the EOF names that can be read from the start.
  lemma ValidateStatus(cfg: Config, st: Rx, env: Env)
    requires Steady(cfg, st) && Finds(st)
    ensures Separated(st.chunks)
    ensures var t := Tick(cfg, st, env).rx;
            && t.data.sub == Validate
            && t.status == if st.fsize == st.data.eofSize && st.disk.fdOpen && env.seekOk then st.status
                           else ST_FILE_SIZE_ERROR
  {
    hide InactivityTick, AckTimerTick, CheckState, Maintain, Separated, CheckComplete, Covers;
    ListSound(cfg, st);
    var b := AckTimerTick(InactivityTick(st));
    TimersTell(st);
    CompleteIffFinds(st);
    SameCompleteness(st, b);
    CompleteCheck(cfg, b, env);
    MaintainQuiet(cfg, TickState(cfg, st, env), env.bufOk);
  }

  lemma CompleteCheck(cfg: Config, st: Rx, env: Env)
    requires Separated(st.chunks) && 0 < cfg.crcBlock && st.data.sub == DataEof && st.Ok() && CheckComplete(st)
    ensures var t := CheckState(cfg, st, env);
            && t.data.sub == Validate
            && t.status == if st.fsize == st.data.eofSize && st.disk.fdOpen && env.seekOk then st.status
                           else ST_FILE_SIZE_ERROR
  {
    hide CheckComplete, Separated;
  }

  // While the checksum is computed, the only errors are a timeout and a read that fails.
  lemma ReadStatus(cfg: Config, st: Rx, env: Env)
    requires Steady(cfg, st) && st.Active() && st.data.sub == Validate && st.Ok()
    ensures Separated(st.chunks)
    ensures var t := Tick(cfg, st, env).rx;
            t.status == if !Timely(st) then ST_INACTIVITY_DETECTED
                        else if st.data.cachedPos != st.fsize && !Reads(cfg, st, env) then ST_FILE_SIZE_ERROR
                        else st.status
  {
    hide InactivityTick, AckTimerTick, CheckState, Maintain, Separated, Reads;
    ListSound(cfg, st);
    var b := AckTimerTick(InactivityTick(st));
    TimersTell(st);
    ReadCheck(cfg, b, env);
    SameReads(cfg, st, b, env);
    MaintainQuiet(cfg, TickState(cfg, st, env), env.bufOk);
  }

  // All reads of one stretch of the checksum succeed.
  predicate Reads(cfg: Config, st: Rx, env: Env)
    requires 0 < cfg.crcBlock
  {
    CrcLoop(cfg, st.fsize, st.disk.temp, CrcRun(st.data.cachedPos, st.disk.pos, st.crc, true), 0,
            if st.disk.fdOpen then env.okReads else 0).success
  }

  lemma SameReads(cfg: Config, st: Rx, b: Rx, env: Env)
    requires 0 < cfg.crcBlock && Timed(st, b)
    ensures Reads(cfg, b, env) == Reads(cfg, st, env)
  {
    hide CrcLoop;
  }

  lemma ReadCheck(cfg: Config, st: Rx, env: Env)
    requires Separated(st.chunks) && 0 < cfg.crcBlock && st.data.sub == Validate
    ensures CheckState(cfg, st, env).status
         == if st.Ok() && st.data.cachedPos != st.fsize && !Reads(cfg, st, env) then ST_FILE_SIZE_ERROR else st.status
  {
    hide CrcLoop, Finalize, Separated;
  }

  // File data that a clean transaction takes: the two ways to fail, and else the range
  // remembered, the bytes written and the count of NAKs begun anew.
  lemma DataStatus(cfg: Config, st: Rx, off: nat, data: seq<uint8>, env: Env)
    requires Steady(cfg, st) && Acceptable(FileData(off, data)) && st.Active() && st.Ok()
    ensures var t := Recv(cfg, st, Packet(!st.reliable, FileData(off, data)), env);
            var lost := st.data.cachedPos != off && !(st.disk.fdOpen && env.seekOk);
            var cut := !st.disk.fdOpen || env.written < |data|;
            && t.status == (if lost then ST_FILE_SIZE_ERROR else if cut then ST_FILESTORE_REJECTION else st.status)
            && (t.Ok() ==>
                  && t.chunks == Add(st.cap, st.chunks, Chunk(off, |data|)) && t.data.acknak == 0
                  && t.data.cachedPos == off + |data|
                  && t.disk.temp == WriteAt(st.disk.temp, if st.data.cachedPos != off then off else st.disk.pos, data))
            && (!t.Ok() ==> t.chunks == st.chunks && t.data.acknak == st.data.acknak)
  {
    hide Add, WriteAt, Separated;
    assert data[..|data|] == data;
  }

  // ---------- traffic puts off the next NAK ----------

  // Every PDU of an R2 transaction whose ack timer runs starts it anew.
  lemma TrafficRearms(cfg: Config, st: Rx, pkt: Packet, env: Env)
    requires Steady(cfg, st) && Acceptable(pkt.pdu) && st.phase == R2 && st.reliable && st.com.ackArmed
    requires !pkt.unacknowledged
    ensures var t := Recv(cfg, st, pkt, env);
            t.com.ackArmed && t.ackTimer == cfg.ackTicks
  {
    hide Handle, Separated;
    HandleKeepsArmed(cfg, st, pkt.pdu, env);
  }

  lemma HandleKeepsArmed(cfg: Config, st: Rx, p: Pdu, env: Env)
    requires 0 < st.cap && Acceptable(p) && st.Active()
    ensures Handle(cfg, st, p, env).com.ackArmed == st.com.ackArmed && Handle(cfg, st, p, env).phase == st.phase
  {
    hide ProcessFd, RecvEof;
    if p.FileData? {
      DataHears(st, p.offset, p.data, env);
      DataKeepsPhase(st, p.offset, p.data, env);
    } else if p.Eof? {
      EofHears(cfg, st, p.cc, p.crc, p.size);
      EofKeepsPhase(cfg, st, p.cc, p.crc, p.size);
    }
  }

  lemma DataKeepsPhase(st: Rx, off: nat, data: seq<uint8>, env: Env)
    requires 0 < st.cap
    ensures ProcessFd(st, off, data, env).phase == st.phase
  {
    hide Add, WriteAt;
  }

  lemma EofKeepsPhase(cfg: Config, st: Rx, cc: nat, crc: nat, size: nat)
    ensures RecvEof(cfg, st, cc, crc, size).phase == st.phase
  {
  }

  // So a receiver that has asked and still lacks data asks again one full ack timer
  // after the last PDU that came in, not before, and then at the same pace as ever.
  lemma TrafficPutsOffNak(cfg: Config, st: Rx, pkt: Packet, env: Env, envs: seq<Env>, at: nat)
    requires Steady(cfg, st) && Acceptable(pkt.pdu) && st.phase == R2 && st.reliable && st.com.ackArmed
    requires !pkt.unacknowledged && !st.flags.sendNak
    ensures var a := Recv(cfg, st, pkt, env);
            && Steady(cfg, a) && Separated(a.chunks)
            && (Asking(cfg, a) && |envs| == TicksLeft(cfg, a, false) <= a.inactTimer
                && (forall i :: 0 <= i < |envs| ==> envs[i].bufOk) ==>
                  SendTimes(cfg, a, envs, at) == Every(at + cfg.ackTicks, cfg.ackTicks + 1, SendsLeft(cfg, a, false)))
  {
    hide Recv, SendTimes, Asking, SendsLeft, TicksLeft, Separated, Steady, Every;
    ListSound(cfg, st);
    var a := Recv(cfg, st, pkt, env);
    TrafficRearms(cfg, st, pkt, env);
    StillListed(cfg, st, pkt, env);
    ListSound(cfg, a);
    if Asking(cfg, a) && |envs| == TicksLeft(cfg, a, false) <= a.inactTimer
       && forall i :: 0 <= i < |envs| ==> envs[i].bufOk {
      NakRepeats(cfg, a, envs, at);
    }
  }

  lemma StillListed(cfg: Config, st: Rx, pkt: Packet, env: Env)
    requires Steady(cfg, st) && Acceptable(pkt.pdu)
    ensures Steady(cfg, Recv(cfg, st, pkt, env)) && Recv(cfg, st, pkt, env).flags.sendNak == st.flags.sendNak
  {
    hide Recv, Add, WellFormed;
    RecvHandles(cfg, st, pkt, env);
    StepKeepsChunks(cfg, st, Arrive(pkt, env));
  }

  // ---------- an error ends a transfer ----------

  // Wakeups until the file is disposed of: one for each sub-state there is still to enter.
  function StagesLeft(st: Rx): nat {
    match st.data.sub
    case DataNormal => if st.flags.eofCount != 0 then 3 else 2
    case DataEof => 2
    case Validate => 2
    case FileStore => 1
    case _ => 0
  }

  lemma ErrorCheck(cfg: Config, st: Rx, env: Env)
    requires Separated(st.chunks) && 0 < cfg.crcBlock && !st.Ok() && !Disposed(st)
    ensures var t := CheckState(cfg, st, env);
            !t.Ok() && StagesLeft(t) + 1 == StagesLeft(st) && (!Disposed(t) ==> t.phase == st.phase)
  {
    hide Check, Enter, Separated;
    var (a, next) := Check(cfg, st, env);
    ErrorDecides(cfg, st, env);
    CheckChecked(cfg, st, env);
    EnterEntered(cfg, a, next, env);
  }

  lemma ErrorDecides(cfg: Config, st: Rx, env: Env)
    requires Separated(st.chunks) && 0 < cfg.crcBlock && !st.Ok() && !Disposed(st)
    ensures var next := Check(cfg, st, env).1;
            && (st.data.sub == DataNormal ==> next == if st.flags.eofCount != 0 then DataEof else FileStore)
            && (st.data.sub == DataEof || st.data.sub == Validate ==> next == FileStore)
            && (st.data.sub == FileStore ==> next == FinAck || next == Complete)
  {
    hide CheckComplete, Separated, HandleFileRetention;
  }

  lemma ErrorTick(cfg: Config, st: Rx, env: Env)
    requires Steady(cfg, st) && !st.Ok() && st.Active() && !Disposed(st)
    ensures Separated(st.chunks)
    ensures var t := Tick(cfg, st, env).rx;
            !t.Ok() && StagesLeft(t) + 1 == StagesLeft(st) && (!Disposed(t) ==> t.Active())
  {
    hide InactivityTick, AckTimerTick, CheckState, Maintain, Separated;
    ListSound(cfg, st);
    TimersTimed(st);
    ErrorCheck(cfg, AckTimerTick(InactivityTick(st)), env);
    MaintainQuiet(cfg, TickState(cfg, st, env), env.bufOk);
  }

  // Whatever the error and with or without buffers, the file is disposed of after
  // exactly as many wakeups as sub-states are left: at most three.
  lemma {:induction false} ErrorEnds(cfg: Config, st: Rx, envs: seq<Env>)
    requires Steady(cfg, st) && !st.Ok() && st.Active() && |envs| <= StagesLeft(st)
    ensures Separated(st.chunks) && StagesLeft(st) <= 3
    ensures Disposed(Ticks(cfg, st, envs).0) <==> |envs| == StagesLeft(st)
    decreases |envs|
  {
    hide Tick, Separated;
    ListSound(cfg, st);
    if envs != [] {
      ErrorTick(cfg, st, envs[0]);
      TickKeepsList(cfg, st, envs[0]);
      var t := Tick(cfg, st, envs[0]).rx;
      if t.Active() {
        ErrorEnds(cfg, t, envs[1..]);
      } else {
        assert envs[1..] == [];
      }
    }
  }

  // ---------- recycling ----------

  // Held over, a receiver stays for exactly as many wakeups as its timer has left and
  // one, and is recycled in that one; the timer running down is no error then.
  lemma HoldTick(cfg: Config, st: Rx, env: Env)
    requires Steady(cfg, st) && !st.Active()
    ensures Separated(st.chunks)
    ensures var r := Tick(cfg, st, env);
            && !r.rx.Active() && (r.recycled <==> !Timely(st) || st.com.inactFired)
            && r.rx.status == st.status && r.rx.disk == st.disk
            && (!r.recycled ==> !r.rx.com.inactFired && r.rx.inactTimer + 1 == st.inactTimer)
  {
    hide Maintain, Separated;
    ListSound(cfg, st);
    MaintainQuiet(cfg, TickState(cfg, st, env), env.bufOk);
  }

  lemma {:induction false} HoldLasts(cfg: Config, st: Rx, envs: seq<Env>)
    requires Steady(cfg, st) && !st.Active() && !st.com.inactFired && |envs| == st.inactTimer + 1
    ensures Separated(st.chunks)
    ensures forall k :: 0 <= k < |envs| ==>
              && var t := Ticks(cfg, st, envs[..k]).0;
                 && Steady(cfg, t) && Separated(t.chunks)
                 && (Tick(cfg, t, envs[k]).recycled <==> k == st.inactTimer)
    decreases |envs|
  {
    hide Tick, Separated;
    ListSound(cfg, st);
    HoldTick(cfg, st, envs[0]);
    TickKeepsList(cfg, st, envs[0]);
    var r := Tick(cfg, st, envs[0]);
    if !r.recycled {
      HoldLasts(cfg, r.rx, envs[1..]);
      forall k | 0 < k < |envs|
        ensures var t := Ticks(cfg, st, envs[..k]).0;
                && Steady(cfg, t) && Separated(t.chunks)
                && (Tick(cfg, t, envs[k]).recycled <==> k == st.inactTimer)
      {
        assert envs[..k][1..] == envs[1..][..k - 1] && envs[..k][0] == envs[0] && envs[1..][k - 1] == envs[k];
      }
    }
    assert envs[..0] == [];
  }

  // While active it is never recycled, but in the wakeup that holds it over after a
  // timeout.
  lemma ActiveRecycled(cfg: Config, st: Rx, env: Env)
    requires Steady(cfg, st) && st.Active()
    ensures Separated(st.chunks)
    ensures var r := Tick(cfg, st, env);
            r.recycled <==> !r.rx.Active() && (st.com.inactFired || st.inactTimer == 0)
  {
    hide InactivityTick, AckTimerTick, CheckState, Maintain, Separated;
    ListSound(cfg, st);
    TimersTell(st);
    CheckKeepsFired(cfg, AckTimerTick(InactivityTick(st)), env);
    MaintainQuiet(cfg, TickState(cfg, st, env), env.bufOk);
  }

  lemma CheckKeepsFired(cfg: Config, st: Rx, env: Env)
    requires Separated(st.chunks) && 0 < cfg.crcBlock
    ensures CheckState(cfg, st, env).com.inactFired == st.com.inactFired
  {
    hide Check, Enter, Separated;
    var (a, next) := Check(cfg, st, env);
    CheckChecked(cfg, st, env);
    EnterEntered(cfg, a, next, env);
  }

  // In holdover the temporary file is closed, over every run.
  ghost predicate Closed(st: Rx) { !st.Active() ==> !st.disk.fdOpen }

  lemma StepCloses(cfg: Config, st: Rx, e: Event)
    requires Steady(cfg, st) && ValidEvent(e) && Closed(st)
    ensures Closed(Step(cfg, st, e))
  {
    hide Recv, Tick, Separated;
    match e {
      case Arrive(pkt, env) => RecvHandles(cfg, st, pkt, env);
      case Wakeup(env) =>
        if st.Active() {
          TickCloses(cfg, st, env);
        } else {
          HoldTick(cfg, st, env);
        }
      case _ =>
    }
  }

  lemma TickCloses(cfg: Config, st: Rx, env: Env)
    requires Steady(cfg, st) && st.Active()
    ensures Separated(st.chunks)
    ensures Closed(Tick(cfg, st, env).rx)
  {
    hide InactivityTick, AckTimerTick, CheckState, Maintain, Separated;
    ListSound(cfg, st);
    TimersTimed(st);
    CheckCloses(cfg, AckTimerTick(InactivityTick(st)), env);
    MaintainQuiet(cfg, TickState(cfg, st, env), env.bufOk);
  }

  lemma CheckCloses(cfg: Config, st: Rx, env: Env)
    requires Separated(st.chunks) && 0 < cfg.crcBlock && st.Active()
    ensures Closed(CheckState(cfg, st, env))
  {
    hide Check, Enter, Separated;
    var (a, next) := Check(cfg, st, env);
    CheckChecked(cfg, st, env);
    EnterCloses(cfg, a, next, env);
  }

  lemma EnterCloses(cfg: Config, st: Rx, next: Sub, env: Env)
    requires st.Active()
    ensures Closed(Enter(cfg, st, next, env))
  {
  }

  lemma {:induction false} RunCloses(cfg: Config, unack: bool, list: Option<Handed>, stale: Status, createOk: bool,
                                     previous: Option<seq<uint8>>, es: seq<Event>)
    requires Usable(list) && 0 < cfg.crcBlock && AllValid(es)
    ensures var start := Setup(cfg, unack, list, stale, createOk, previous);
            Steady(cfg, start) && Closed(Run(cfg, start, es))
    decreases |es|
  {
    hide Step, Setup;
    var start := Setup(cfg, unack, list, stale, createOk, previous);
    SetupAccounts(cfg, unack, list, stale, createOk, previous);
    if es != [] {
      RunCloses(cfg, unack, list, stale, createOk, previous, es[..|es| - 1]);
      StepCloses(cfg, Run(cfg, start, es[..|es| - 1]), es[|es| - 1]);
    } else {
      SetupCloses(cfg, unack, list, stale, createOk, previous);
    }
  }

  lemma SetupCloses(cfg: Config, unack: bool, list: Option<Handed>, stale: Status, createOk: bool,
                    previous: Option<seq<uint8>>)
    ensures Closed(Setup(cfg, unack, list, stale, createOk, previous))
  {
  }
}
