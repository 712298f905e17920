/** With nothing arriving and sends succeeding, a receiving transaction ends in time. */
module RxTermination {
  import opened Cfdp
  import opened Crc
  import opened ChunkSpec
  import opened RxSpec
  import opened RxRuns
  import Gaps
  import RxChecksum

  // Kept by every run: an inactivity timeout is an error in an active transaction,
  // completion means holdover, and a FIN is only due from FINACK on.
  ghost predicate Sane(cfg: Config, st: Rx) {
    && (st.com.inactFired && st.Active() ==> !st.Ok())
    && (st.data.sub == Complete ==> !st.Active())
    && (st.flags.sendFin ==> 4 <= st.data.sub.Rank())
    && st.data.acknak <= cfg.ackLimit
    && st.ackTimer <= cfg.ackTicks
  }

  lemma SetupSane(cfg: Config, unack: bool, list: Option<Handed>, stale: Status, createOk: bool,
                  previous: Option<seq<uint8>>)
    ensures Sane(cfg, Setup(cfg, unack, list, stale, createOk, previous))
  {
  }

  lemma StepSane(cfg: Config, st: Rx, e: Event)
    requires 0 < st.cap && Separated(st.chunks) && 0 < cfg.crcBlock && ValidEvent(e) && Sane(cfg, st)
    ensures Sane(cfg, Step(cfg, st, e))
  {
    match e {
      case Arrive(pkt, env) =>
        ArriveSane(cfg, st, pkt, env);
      case Wakeup(env) =>
        TickSane(cfg, st, env);
      case _ =>
    }
  }

  lemma ArriveSane(cfg: Config, st: Rx, pkt: Packet, env: Env)
    requires 0 < st.cap && Acceptable(pkt.pdu) && Sane(cfg, st)
    ensures Sane(cfg, Recv(cfg, st, pkt, env))
  {
    hide Recv, Add;
    RecvHandles(cfg, st, pkt, env);
    RecvTimer(cfg, st, pkt, env);
  }

  lemma RecvTimer(cfg: Config, st: Rx, pkt: Packet, env: Env)
    requires 0 < st.cap && Acceptable(pkt.pdu)
    ensures Recv(cfg, st, pkt, env).ackTimer == st.ackTimer || Recv(cfg, st, pkt, env).ackTimer == cfg.ackTicks
  {
    hide Add, WriteAt;
  }

  lemma TickSane(cfg: Config, st: Rx, env: Env)
    requires 0 < st.cap && Separated(st.chunks) && 0 < cfg.crcBlock && Sane(cfg, st)
    ensures Sane(cfg, Tick(cfg, st, env).rx)
  {
    hide CheckState, Maintain, Separated, InactivityTick, AckTimerTick;
    var b := AckTimerTick(InactivityTick(st));
    TimersSane(cfg, st);
    if st.Active() {
      CheckStateSane(cfg, b, env);
    }
    SendingSane(cfg, TickState(cfg, st, env), env.bufOk);
  }

  lemma TimersSane(cfg: Config, st: Rx)
    requires Sane(cfg, st)
    ensures Sane(cfg, InactivityTick(st)) && Sane(cfg, AckTimerTick(InactivityTick(st)))
    ensures AckTimerTick(InactivityTick(st)).phase == st.phase && AckTimerTick(InactivityTick(st)).chunks == st.chunks
  {
  }

  lemma SendingSane(cfg: Config, st: Rx, bufOk: bool)
    requires 0 < st.cap && Separated(st.chunks) && Sane(cfg, st)
    ensures Sane(cfg, Maintain(cfg, st, bufOk).0)
  {
    hide Maintain, Separated;
    MaintainQuiet(cfg, st, bufOk);
    MaintainClears(cfg, st, bufOk);
  }

  lemma CheckStateSane(cfg: Config, st: Rx, env: Env)
    requires Separated(st.chunks) && 0 < cfg.crcBlock && Sane(cfg, st) && st.Active()
    ensures Sane(cfg, CheckState(cfg, st, env))
  {
    CheckChecked(cfg, st, env);
    CheckAdvances(cfg, st, env);
    EnterEntered(cfg, Check(cfg, st, env).0, Check(cfg, st, env).1, env);
    hide Check, Enter, Separated;
  }

  // ---------- what is still to be sent ----------

  function Bit(b: bool): nat { if b then 1 else 0 }

  predicate EofAckDue(st: Rx) { st.reliable && st.flags.eofAckCount != st.flags.eofCount }

  function Pending(st: Rx): nat {
    Bit(EofAckDue(st)) + Bit(st.flags.sendNak) + Bit(st.flags.sendFin)
  }

  // With a buffer at hand, one pending packet is served per wakeup, in fixed order.
  lemma MaintainClears(cfg: Config, st: Rx, bufOk: bool)
    requires Separated(st.chunks) && 0 < st.cap
    ensures var t := Maintain(cfg, st, bufOk).0;
            && (t.flags.sendFin ==> st.flags.sendFin) && (t.flags.sendNak ==> st.flags.sendNak)
            && (bufOk ==> Pending(t) == if Pending(st) == 0 then 0 else Pending(st) - 1)
            && (bufOk && EofAckDue(st) ==>
                  t.flags.sendNak == st.flags.sendNak && t.flags.sendFin == st.flags.sendFin &&
                  t.com == st.com && t.ackTimer == st.ackTimer)
            && (bufOk && !EofAckDue(st) && st.flags.sendNak ==> !t.flags.sendNak && t.flags.sendFin == st.flags.sendFin)
            && (bufOk && !EofAckDue(st) && !st.flags.sendNak && st.flags.sendFin ==> !t.flags.sendFin)
            && (Pending(st) == 0 ==> t == st)
            && ((t.com == st.com && t.ackTimer == st.ackTimer) ||
                (t.com == st.com.(ackArmed := true) && t.ackTimer == cfg.ackTicks))
  {
    hide NakSegs, NakGaps, Separated;
  }

  // ---------- the bound the inactivity timer gives ----------

  // Wakeups left once the inactivity timer has fired.
  function Work(st: Rx): nat {
    5 - st.data.sub.Rank() + Pending(st)
  }

  function HoldBound(st: Rx): nat {
    if !st.Active() then 0
    else if st.com.inactFired then Work(st)
    else st.inactTimer + 9
  }

  // Without Ok a wait is only possible for a FIN to be sent.
  lemma FiredDecision(cfg: Config, st: Rx, env: Env)
    requires Separated(st.chunks) && 0 < cfg.crcBlock && !st.Ok() && st.com.inactFired
    ensures Check(cfg, st, env).1 == st.data.sub ==>
              st.data.sub == Complete || (st.data.sub == FinAck && st.flags.sendFin)
  {
    hide CrcLoop, Separated;
  }

  lemma FiredCheck(cfg: Config, st: Rx, env: Env)
    requires Separated(st.chunks) && 0 < cfg.crcBlock && Sane(cfg, st) && st.Active() && st.com.inactFired
    ensures var t := CheckState(cfg, st, env);
            && t.com.inactFired
            && (t.Active() ==> 5 - t.data.sub.Rank() + (if Pending(t) == 0 then 0 else Pending(t) - 1) < Work(st))
  {
    FiredDecision(cfg, st, env);
    CheckChecked(cfg, st, env);
    CheckAdvances(cfg, st, env);
    EnterEntered(cfg, Check(cfg, st, env).0, Check(cfg, st, env).1, env);
    hide Check, Enter, Separated;
  }

  lemma FiredTick(cfg: Config, st: Rx, env: Env)
    requires 0 < st.cap && Separated(st.chunks) && 0 < cfg.crcBlock && Sane(cfg, st) && env.bufOk
    requires st.Active() && st.com.inactFired
    ensures var t := Tick(cfg, st, env).rx;
            t.com.inactFired && (t.Active() ==> Work(t) < Work(st))
  {
    var b := AckTimerTick(st);
    assert Sane(cfg, b) && Work(b) == Work(st);
    FiredCheck(cfg, b, env);
    var c := TickState(cfg, st, env);
    assert c == CheckState(cfg, b, env);
    MaintainQuiet(cfg, c, true);
    MaintainClears(cfg, c, true);
    hide CheckState, Maintain, Separated, AckTimerTick, TickState, InactivityTick;
  }

  // Each wakeup brings holdover closer, whatever the file operations do.
  lemma TickApproachesHold(cfg: Config, st: Rx, env: Env)
    requires 0 < st.cap && Separated(st.chunks) && 0 < cfg.crcBlock && Sane(cfg, st) && env.bufOk
    requires st.Active()
    ensures HoldBound(Tick(cfg, st, env).rx) < HoldBound(st)
  {
    if st.com.inactFired {
      FiredTick(cfg, st, env);
    } else {
      TickTimers(cfg, st, env);
      PendingBound(Tick(cfg, st, env).rx);
    }
    hide Tick;
  }

  // Until it fires, the inactivity timer of an active transaction runs down.
  lemma TickTimers(cfg: Config, st: Rx, env: Env)
    requires 0 < st.cap && Separated(st.chunks) && 0 < cfg.crcBlock && st.Active() && !st.com.inactFired
    ensures var t := Tick(cfg, st, env).rx;
            && t.com.inactFired == (st.inactTimer == 0)
            && (t.Active() && 0 < st.inactTimer ==> t.inactTimer == st.inactTimer - 1)
            && (!t.Active() ==> t.inactTimer == 2 * cfg.ackTicks)
  {
    var b := AckTimerTick(InactivityTick(st));
    assert b.com.inactFired == (st.inactTimer == 0) && b.Active();
    assert 0 < st.inactTimer ==> b.inactTimer == st.inactTimer - 1;
    CheckStateTimers(cfg, b, env);
    MaintainQuiet(cfg, TickState(cfg, st, env), env.bufOk);
    hide CheckState, Maintain, Separated, InactivityTick, AckTimerTick;
  }

  lemma PendingBound(st: Rx)
    ensures Work(st) <= 8
  {
  }

  lemma CheckStateTimers(cfg: Config, st: Rx, env: Env)
    requires Separated(st.chunks) && 0 < cfg.crcBlock
    ensures var t := CheckState(cfg, st, env);
            && t.com.inactFired == st.com.inactFired
            && (t.Active() ==> t.inactTimer == st.inactTimer)
            && (st.Active() && !t.Active() ==> t.inactTimer == 2 * cfg.ackTicks)
  {
    CheckChecked(cfg, st, env);
    EnterEntered(cfg, Check(cfg, st, env).0, Check(cfg, st, env).1, env);
    hide Check, Enter, Separated;
  }

  // Every class 1 or class 2 transaction is over after at most the ticks left on
  // the inactivity timer plus nine.
  lemma {:induction false} EndsByInactivity(cfg: Config, st: Rx, envs: seq<Env>)
    requires 0 < st.cap && Separated(st.chunks) && 0 < cfg.crcBlock && Sane(cfg, st)
    requires forall i :: 0 <= i < |envs| ==> envs[i].bufOk
    requires HoldBound(st) <= |envs|
    ensures !Ticks(cfg, st, envs).0.Active()
    decreases |envs|
  {
    if st.Active() {
      TickApproachesHold(cfg, st, envs[0]);
      TickSane(cfg, st, envs[0]);
      TickKeepsList(cfg, st, envs[0]);
      hide Tick, Sane, HoldBound, Separated;
      EndsByInactivity(cfg, Tick(cfg, st, envs[0]).rx, envs[1..]);
    } else {
      HoldStays(cfg, st, envs);
    }
  }

  // ---------- and then it is recycled ----------

  function RecycleBound(cfg: Config, st: Rx): nat {
    if st.Active() then HoldBound(st) + 2 * cfg.ackTicks + 1
    else if st.com.inactFired then 1
    else st.inactTimer + 1
  }

  lemma TickApproachesRecycling(cfg: Config, st: Rx, env: Env)
    requires 0 < st.cap && Separated(st.chunks) && 0 < cfg.crcBlock && Sane(cfg, st) && env.bufOk
    ensures var t := Tick(cfg, st, env);
            t.recycled || RecycleBound(cfg, t.rx) < RecycleBound(cfg, st)
  {
    hide TickState, Maintain, Separated;
    var t := Tick(cfg, st, env);
    MaintainQuiet(cfg, TickState(cfg, st, env), true);
    if st.Active() {
      TickApproachesHold(cfg, st, env);
      if !st.com.inactFired {
        TickTimers(cfg, st, env);
      } else {
        FiredTick(cfg, st, env);
      }
    } else {
      IdleTick(cfg, st, env);
    }
  }

  ghost predicate Recycles(cfg: Config, st: Rx, envs: seq<Env>)
    requires 0 < st.cap && Separated(st.chunks) && 0 < cfg.crcBlock
    decreases |envs|
  {
    if envs == [] then false
    else
      TickKeepsList(cfg, st, envs[0]);
      var t := Tick(cfg, st, envs[0]);
      t.recycled || Recycles(cfg, t.rx, envs[1..])
  }

  // No transaction stays in memory for ever, held over or not.
  lemma {:induction false} AlwaysRecycled(cfg: Config, st: Rx, envs: seq<Env>)
    requires 0 < st.cap && Separated(st.chunks) && 0 < cfg.crcBlock && Sane(cfg, st)
    requires forall i :: 0 <= i < |envs| ==> envs[i].bufOk
    requires RecycleBound(cfg, st) <= |envs|
    ensures Recycles(cfg, st, envs)
    decreases |envs|
  {
    hide Tick, Sane, HoldBound, Separated;
    TickApproachesRecycling(cfg, st, envs[0]);
    TickSane(cfg, st, envs[0]);
    TickKeepsList(cfg, st, envs[0]);
    if !Tick(cfg, st, envs[0]).recycled {
      AlwaysRecycled(cfg, Tick(cfg, st, envs[0]).rx, envs[1..]);
    }
  }

  lemma {:induction false} RunSane(cfg: Config, st: Rx, es: seq<Event>)
    requires 0 < st.cap && WellFormed(st.cap, st.chunks) && 0 < cfg.crcBlock && Sane(cfg, st)
    requires forall k :: 0 <= k < |es| ==> ValidEvent(es[k])
    ensures Sane(cfg, Run(cfg, st, es))
    decreases |es|
  {
    hide Sane, Step;
    if es != [] {
      var last := Run(cfg, st, es[..|es| - 1]);
      RunSane(cfg, st, es[..|es| - 1]);
      RxChecksum.ListSeparated(last);
      StepSane(cfg, last, es[|es| - 1]);
    }
  }

  // So whenever in a run of a new transaction nothing arrives any more, it ends.
  lemma EveryRunEnds(cfg: Config, unack: bool, list: Option<Handed>, stale: Status, createOk: bool,
                     previous: Option<seq<uint8>>, es: seq<Event>, envs: seq<Env>)
    requires Usable(list) && 0 < cfg.crcBlock && forall k :: 0 <= k < |es| ==> ValidEvent(es[k])
    requires forall i :: 0 <= i < |envs| ==> envs[i].bufOk
    ensures var start := Setup(cfg, unack, list, stale, createOk, previous);
            && 0 < start.cap && WellFormed(start.cap, start.chunks)
            && var st := Run(cfg, start, es);
               && Separated(st.chunks) && Sane(cfg, st)
               && (HoldBound(st) <= |envs| ==> !Ticks(cfg, st, envs).0.Active())
               && (RecycleBound(cfg, st) <= |envs| ==> Recycles(cfg, st, envs))
  {
    hide Run, Sane, HoldBound, RecycleBound, Separated, Recycles, Ticks;
    var start := Setup(cfg, unack, list, stale, createOk, previous);
    SetupList(cfg, unack, list, stale, createOk, previous);
    SetupSane(cfg, unack, list, stale, createOk, previous);
    RunSane(cfg, start, es);
    var st := Run(cfg, start, es);
    RxChecksum.ListSeparated(st);
    if HoldBound(st) <= |envs| {
      EndsByInactivity(cfg, st, envs);
    }
    if RecycleBound(cfg, st) <= |envs| {
      AlwaysRecycled(cfg, st, envs);
    }
  }

  // ---------- the bound the retry limit gives ----------

  // n rounds of sending, waiting out the ack timer and counting up.
  function Rounds(cfg: Config, n: nat): nat {
    if n == 0 then 0 else cfg.ackTicks + 3 + Rounds(cfg, n - 1)
  }

  // The rounds left, and the rest of the current one.
  function Retry(cfg: Config, st: Rx, due: bool): nat {
    Rounds(cfg, if st.data.acknak < cfg.ackLimit then cfg.ackLimit - st.data.acknak else 0)
    + (if due then cfg.ackTicks + 2 else if st.com.ackArmed then st.ackTimer + 1 else 0)
  }

  function FinMax(cfg: Config): nat { Rounds(cfg, cfg.ackLimit) + 2 * cfg.ackTicks + 7 }

  // Bound on the wakeups left for a class 2 transaction that has its EOF.
  function Effort(cfg: Config, st: Rx): nat
    requires 0 < cfg.crcRate
  {
    if !st.Active() then 0
    else match st.data.sub
      case DataNormal => 0
      case DataEof =>
        FinMax(cfg) + 3 + RxChecksum.CeilDiv(st.fsize, cfg.crcRate) + EofEffort(cfg, st)
      case Validate =>
        FinMax(cfg) + 2 +
        (if st.Ok() && st.data.cachedPos <= st.fsize then
           RxChecksum.CeilDiv(st.fsize - st.data.cachedPos, cfg.crcRate)
         else 0)
      case FileStore => FinMax(cfg) + 1
      case FinAck => FinEffort(cfg, st)
      case Complete => 0
  }

  ghost predicate Receiving(cfg: Config, st: Rx) {
    && Sane(cfg, st) && st.reliable
    && 1 <= st.data.sub.Rank()
    && Ahead(st)
  }

  // The read position is not behind the end of the file.
  ghost predicate Ahead(st: Rx) { st.data.sub == Validate && st.Ok() ==> st.data.cachedPos <= st.fsize }

  // A successful read loop gets as far as the rate allows.
  lemma {:induction false} CrcLoopGetsFar(cfg: Config, fsize: nat, temp: seq<uint8>, run: CrcRun, count: nat,
                                          okReads: nat)
    requires ValidConfig(cfg) && count % cfg.crcBlock == 0 && count <= cfg.crcRate && run.cachedPos <= fsize
    ensures var r := CrcLoop(cfg, fsize, temp, run, count, okReads);
            && run.cachedPos <= r.cachedPos <= fsize
            && (r.success ==> r.cachedPos == Min(fsize, run.cachedPos + (cfg.crcRate - count)))
    decreases fsize - run.cachedPos
  {
    hide Digest;
    var n := Min(cfg.crcBlock, fsize - run.cachedPos);
    if count < cfg.crcRate && run.cachedPos < fsize && okReads != 0 && run.pos + n <= |temp| {
      RxChecksum.BlockFits(cfg.crcBlock, cfg.crcRate, count);
      var next := CrcRun(run.cachedPos + n, run.pos + n, Digest(run.crc, temp[run.pos..run.pos + n]), true);
      if n == cfg.crcBlock {
        CrcLoopGetsFar(cfg, fsize, temp, next, count + n, okReads - 1);
      } else {
        assert CrcLoop(cfg, fsize, temp, next, count + n, okReads - 1) == next;
      }
    }
  }

  // --- waiting for missing data ---

  function EofEffort(cfg: Config, st: Rx): nat {
    Retry(cfg, st, st.flags.sendNak) + Bit(EofAckDue(st))
  }

  lemma EofMaintain(cfg: Config, st: Rx)
    requires Separated(st.chunks) && 0 < st.cap && st.ackTimer <= cfg.ackTicks && !st.flags.sendFin
    ensures var t := Maintain(cfg, st, true).0;
            && EofEffort(cfg, t) <= EofEffort(cfg, st)
            && (st.flags.sendNak ==> EofEffort(cfg, t) < EofEffort(cfg, st))
  {
    hide Maintain, Separated, Rounds;
    MaintainQuiet(cfg, st, true);
    MaintainClears(cfg, st, true);
  }

  lemma EofCheck(cfg: Config, st: Rx, env: Env)
    requires Separated(st.chunks) && 0 < cfg.crcBlock && st.Active() && st.reliable && st.data.sub == DataEof
    requires st.data.acknak <= cfg.ackLimit
    ensures var t := CheckState(cfg, st, env);
            && (t.data.sub == DataEof ==>
                  && t.fsize == st.fsize && t.Active() && t.flags.sendFin == st.flags.sendFin
                  && t.ackTimer == st.ackTimer
                  && EofEffort(cfg, t) <= EofEffort(cfg, st)
                  && (t.flags.sendNak || st.com.ackArmed))
            && (t.data.sub == Validate ==> t.Active() && t.fsize == st.fsize && (t.Ok() ==> t.data.cachedPos == 0))
            && (t.data.sub == DataEof || t.data.sub == Validate || t.data.sub == FileStore)
            && t.com.inactFired == st.com.inactFired && t.phase == st.phase
            && (t.data.sub == DataEof && st.com.ackArmed ==> t == st)
  {
    hide Separated, CheckComplete;
  }

  lemma InactivityEffort(cfg: Config, st: Rx)
    ensures var t := InactivityTick(st);
            && t.ackTimer == st.ackTimer && t.com.ackArmed == st.com.ackArmed && t.reliable == st.reliable
            && t.flags == st.flags
            && EofEffort(cfg, t) == EofEffort(cfg, st) && FinEffort(cfg, t) == FinEffort(cfg, st)
  {
    hide Rounds;
  }

  lemma AckTickEffort(cfg: Config, st: Rx)
    requires st.reliable
    ensures var t := AckTimerTick(st);
            && t.ackTimer <= st.ackTimer && (t.com.ackArmed ==> st.com.ackArmed)
            && EofEffort(cfg, t) <= EofEffort(cfg, st) && FinEffort(cfg, t) <= FinEffort(cfg, st)
            && (t.com.ackArmed && !st.flags.sendNak ==> EofEffort(cfg, t) < EofEffort(cfg, st))
            && (t.com.ackArmed && !st.flags.sendFin ==> FinEffort(cfg, t) < FinEffort(cfg, st))
  {
    hide Rounds;
  }

  // The timers bring the effort down while they run.
  lemma TimersEffort(cfg: Config, st: Rx)
    requires st.reliable
    ensures var t := AckTimerTick(InactivityTick(st));
            && t.ackTimer <= st.ackTimer && (t.com.ackArmed ==> st.com.ackArmed)
            && EofEffort(cfg, t) <= EofEffort(cfg, st) && FinEffort(cfg, t) <= FinEffort(cfg, st)
            && (t.com.ackArmed && !st.flags.sendNak ==> EofEffort(cfg, t) < EofEffort(cfg, st))
            && (t.com.ackArmed && !st.flags.sendFin ==> FinEffort(cfg, t) < FinEffort(cfg, st))
  {
    hide EofEffort, FinEffort, InactivityTick, AckTimerTick;
    InactivityEffort(cfg, st);
    AckTickEffort(cfg, InactivityTick(st));
  }

  lemma EofStage(cfg: Config, st: Rx, env: Env)
    requires 0 < st.cap && Separated(st.chunks) && ValidConfig(cfg) && Receiving(cfg, st) && env.bufOk
    requires st.Active() && st.data.sub == DataEof
    ensures Effort(cfg, Tick(cfg, st, env).rx) < Effort(cfg, st)
  {
    hide CheckState, Maintain, Separated, Rounds, RxChecksum.CeilDiv, InactivityTick, AckTimerTick, EofEffort, Retry;
    TimersTimed(st);
    TimersEffort(cfg, st);
    var b := AckTimerTick(InactivityTick(st));
    var c := TickState(cfg, st, env);
    EofCheck(cfg, b, env);
    MaintainQuiet(cfg, c, true);
    if c.data.sub == DataEof {
      EofMaintain(cfg, c);
    }
  }

  // --- computing the checksum ---

  lemma ValidateStage(cfg: Config, st: Rx, env: Env)
    requires 0 < st.cap && Separated(st.chunks) && ValidConfig(cfg) && Receiving(cfg, st) && env.bufOk
    requires st.Active() && st.data.sub == Validate
    ensures Effort(cfg, Tick(cfg, st, env).rx) < Effort(cfg, st)
  {
    hide CheckState, Maintain, Separated, Rounds, RxChecksum.CeilDiv;
    var b := AckTimerTick(InactivityTick(st));
    var c := TickState(cfg, st, env);
    ValidateCheck(cfg, b, env);
    MaintainQuiet(cfg, c, true);
  }

  lemma ValidateCheck(cfg: Config, st: Rx, env: Env)
    requires Separated(st.chunks) && ValidConfig(cfg) && st.Active() && st.data.sub == Validate
    requires st.Ok() ==> st.data.cachedPos <= st.fsize
    ensures var t := CheckState(cfg, st, env);
            && t.Active() && t.fsize == st.fsize
            && (t.data.sub == Validate && t.Ok() ==>
                  && t.data.cachedPos <= t.fsize && st.Ok()
                  && RxChecksum.CeilDiv(t.fsize - t.data.cachedPos, cfg.crcRate)
                       < RxChecksum.CeilDiv(st.fsize - st.data.cachedPos, cfg.crcRate))
            && (t.data.sub == Validate ==> st.Ok() && 0 < RxChecksum.CeilDiv(st.fsize - st.data.cachedPos, cfg.crcRate))
            && (t.data.sub == Validate || t.data.sub == FileStore)
  {
    hide Separated, CrcLoop, RxChecksum.CeilDiv, Finalize;
    if st.Ok() {
      var okReads := if st.disk.fdOpen then env.okReads else 0;
      ModIs(0, cfg.crcBlock, 0, 0);
      CrcLoopGetsFar(cfg, st.fsize, st.disk.temp, CrcRun(st.data.cachedPos, st.disk.pos, st.crc, true), 0, okReads);
      RxChecksum.CeilDivStep(st.fsize - st.data.cachedPos, cfg.crcRate);
    }
  }

  // --- disposing of the file ---

  lemma FileStoreStage(cfg: Config, st: Rx, env: Env)
    requires 0 < st.cap && Separated(st.chunks) && ValidConfig(cfg) && Receiving(cfg, st) && env.bufOk
    requires st.Active() && st.data.sub == FileStore
    ensures Effort(cfg, Tick(cfg, st, env).rx) < Effort(cfg, st)
  {
    hide CheckState, Maintain, Separated, Rounds, RxChecksum.CeilDiv;
    var b := AckTimerTick(InactivityTick(st));
    var c := TickState(cfg, st, env);
    FileStoreCheck(cfg, b, env);
    FinMaintain(cfg, c);
    MaintainQuiet(cfg, c, true);
  }

  lemma FileStoreCheck(cfg: Config, st: Rx, env: Env)
    requires Separated(st.chunks) && 0 < cfg.crcBlock && st.Active() && st.reliable && st.data.sub == FileStore
    ensures var t := CheckState(cfg, st, env);
            && t.data.sub == FinAck && t.Active() && t.reliable && t.ackTimer == st.ackTimer
            && FinEffort(cfg, t) <= FinMax(cfg)
  {
    hide Separated, Rounds;
  }

  // --- waiting for the FIN-ACK ---

  function FinEffort(cfg: Config, st: Rx): nat {
    Retry(cfg, st, st.flags.sendFin) + Bit(EofAckDue(st)) + (if st.flags.sendNak then cfg.ackTicks + 3 else 0) + 1
  }

  lemma FinMaintain(cfg: Config, st: Rx)
    requires Separated(st.chunks) && 0 < st.cap && st.ackTimer <= cfg.ackTicks && st.reliable
    ensures var t := Maintain(cfg, st, true).0;
            && FinEffort(cfg, t) <= FinEffort(cfg, st)
            && (st.flags.sendFin ==> FinEffort(cfg, t) < FinEffort(cfg, st))
  {
    hide Maintain, Separated, Rounds;
    MaintainQuiet(cfg, st, true);
    MaintainClears(cfg, st, true);
  }

  lemma FinCheck(cfg: Config, st: Rx, env: Env)
    requires Separated(st.chunks) && 0 < cfg.crcBlock && st.Active() && st.reliable && st.data.sub == FinAck
    requires st.data.acknak <= cfg.ackLimit
    ensures var t := CheckState(cfg, st, env);
            t.Active() ==>
              && t.data.sub == FinAck && t.reliable && t.ackTimer == st.ackTimer
              && FinEffort(cfg, t) <= FinEffort(cfg, st)
              && (t.flags.sendFin || st.com.ackArmed)
              && (st.com.ackArmed ==> t == st)
  {
    hide Separated;
  }

  lemma FinStage(cfg: Config, st: Rx, env: Env)
    requires 0 < st.cap && Separated(st.chunks) && ValidConfig(cfg) && Receiving(cfg, st) && env.bufOk
    requires st.Active() && st.data.sub == FinAck
    ensures Effort(cfg, Tick(cfg, st, env).rx) < Effort(cfg, st)
  {
    hide CheckState, Maintain, Separated, InactivityTick, AckTimerTick, Retry;
    TimersTimed(st);
    TimersEffort(cfg, st);
    var b := AckTimerTick(InactivityTick(st));
    var c := TickState(cfg, st, env);
    FinCheck(cfg, b, env);
    MaintainQuiet(cfg, c, true);
    if c.Active() {
      FinMaintain(cfg, c);
    }
  }

  lemma TickEffort(cfg: Config, st: Rx, env: Env)
    requires 0 < st.cap && Separated(st.chunks) && ValidConfig(cfg) && Receiving(cfg, st) && env.bufOk && st.Active()
    ensures Effort(cfg, Tick(cfg, st, env).rx) < Effort(cfg, st)
  {
    hide Tick, Separated, Effort;
    match st.data.sub {
      case DataEof => EofStage(cfg, st, env);
      case Validate => ValidateStage(cfg, st, env);
      case FileStore => FileStoreStage(cfg, st, env);
      case FinAck => FinStage(cfg, st, env);
      case _ =>
    }
  }

  lemma TickReceiving(cfg: Config, st: Rx, env: Env)
    requires 0 < st.cap && Separated(st.chunks) && ValidConfig(cfg) && Receiving(cfg, st) && env.bufOk && st.Active()
    ensures Receiving(cfg, Tick(cfg, st, env).rx)
  {
    hide Tick, Separated, Sane, Ahead;
    TickSane(cfg, st, env);
    TickAdvances(cfg, st, env);
    TickKeepsList(cfg, st, env);
    TickAhead(cfg, st, env);
  }

  lemma EffortLeft(cfg: Config, st: Rx)
    requires ValidConfig(cfg) && Receiving(cfg, st) && st.Active()
    ensures 0 < Effort(cfg, st)
  {
    hide Rounds, RxChecksum.CeilDiv;
  }

  // Once it has the EOF, a class 2 transaction is over after a number of wakeups
  // given by the retry limit, the ack timer and the checksum work left, however
  // long the inactivity timer runs.
  lemma {:induction false} EndsByRetryLimit(cfg: Config, st: Rx, envs: seq<Env>)
    requires 0 < st.cap && Separated(st.chunks) && ValidConfig(cfg) && Receiving(cfg, st)
    requires forall i :: 0 <= i < |envs| ==> envs[i].bufOk
    requires Effort(cfg, st) <= |envs|
    ensures !Ticks(cfg, st, envs).0.Active()
    decreases |envs|
  {
    hide Tick, Separated, Receiving, Effort;
    if st.Active() {
      EffortLeft(cfg, st);
      TickEffort(cfg, st, envs[0]);
      TickReceiving(cfg, st, envs[0]);
      TickKeepsList(cfg, st, envs[0]);
      EndsByRetryLimit(cfg, Tick(cfg, st, envs[0]).rx, envs[1..]);
    } else {
      HoldStays(cfg, st, envs);
    }
  }

  // ---------- when the checksum is never finished ----------

  // The read position is behind the end of the file: nothing is left to read, and
  // the end, which alone leads on, is never met.
  ghost predicate Stuck(st: Rx) {
    st.Active() && st.data.sub == Validate && st.Ok() && st.fsize < st.data.cachedPos
  }

  lemma StuckTick(cfg: Config, st: Rx, env: Env)
    requires 0 < st.cap && Separated(st.chunks) && 0 < cfg.crcBlock && Stuck(st) && !st.com.inactFired
    ensures var t := Tick(cfg, st, env).rx;
            if 0 < st.inactTimer then
              Stuck(t) && !t.com.inactFired && t.inactTimer == st.inactTimer - 1 && t.fsize == st.fsize
            else t.data.sub == FileStore && t.status == ST_INACTIVITY_DETECTED
  {
    hide CheckState, Maintain, Separated;
    StuckCheck(cfg, AckTimerTick(InactivityTick(st)), env);
    MaintainQuiet(cfg, TickState(cfg, st, env), env.bufOk);
  }

  lemma StuckCheck(cfg: Config, st: Rx, env: Env)
    requires Separated(st.chunks) && 0 < cfg.crcBlock && st.data.sub == Validate && st.fsize < st.data.cachedPos
    ensures var t := CheckState(cfg, st, env);
            if st.Ok() then t == st else t.data.sub == FileStore && t.status == st.status
  {
    hide Separated, Finalize;
  }

  // It stays there for as long as the inactivity timer runs, and then fails.
  lemma {:induction false} StuckUntilInactive(cfg: Config, st: Rx, envs: seq<Env>)
    requires 0 < st.cap && Separated(st.chunks) && 0 < cfg.crcBlock && Stuck(st) && !st.com.inactFired
    requires |envs| <= st.inactTimer + 1
    ensures var t := Ticks(cfg, st, envs).0;
            if |envs| <= st.inactTimer then Stuck(t) else t.data.sub == FileStore && t.status == ST_INACTIVITY_DETECTED
    decreases |envs|
  {
    if envs != [] {
      hide Tick, Separated, Stuck;
      TickKeepsList(cfg, st, envs[0]);
      StuckTick(cfg, st, envs[0]);
      if 0 < st.inactTimer {
        StuckUntilInactive(cfg, Tick(cfg, st, envs[0]).rx, envs[1..]);
      }
    }
  }

  // Wakeups left in VALIDATE: one for every stretch, and one that finds the end.
  function Left(cfg: Config, st: Rx): nat
    requires 0 < cfg.crcRate
  {
    if st.Ok() && st.data.cachedPos <= st.fsize then
      RxChecksum.CeilDiv(st.fsize - st.data.cachedPos, cfg.crcRate) + 1
    else 1
  }

  lemma LeftTick(cfg: Config, st: Rx, env: Env)
    requires 0 < st.cap && Separated(st.chunks) && ValidConfig(cfg) && st.Active() && st.data.sub == Validate
    requires !Stuck(st)
    ensures var t := Tick(cfg, st, env).rx;
            t.data.sub == Validate ==> t.Active() && !Stuck(t) && Left(cfg, t) < Left(cfg, st)
  {
    hide CheckState, Maintain, Separated, RxChecksum.CeilDiv, InactivityTick, AckTimerTick;
    var b := AckTimerTick(InactivityTick(st));
    TimersTimed(st);
    ValidateCheck(cfg, b, env);
    MaintainQuiet(cfg, TickState(cfg, st, env), env.bufOk);
  }

  lemma {:induction false} LeavesValidate(cfg: Config, st: Rx, envs: seq<Env>)
    requires 0 < st.cap && Separated(st.chunks) && ValidConfig(cfg) && 2 <= st.data.sub.Rank()
    requires st.data.sub == Validate ==> st.Active() && !Stuck(st) && Left(cfg, st) <= |envs|
    ensures Ticks(cfg, st, envs).0.data.sub != Validate
    decreases |envs|
  {
    hide Tick, Separated, Stuck, Left;
    if st.data.sub == Validate {
      LeftPositive(cfg, st);
      TickKeepsList(cfg, st, envs[0]);
      TickAdvances(cfg, st, envs[0]);
      LeftTick(cfg, st, envs[0]);
      LeavesValidate(cfg, Tick(cfg, st, envs[0]).rx, envs[1..]);
    } else {
      TicksKeepList(cfg, st, envs);
    }
  }

  lemma LeftPositive(cfg: Config, st: Rx)
    requires 0 < cfg.crcRate
    ensures 0 < Left(cfg, st)
  {
  }

  lemma LeftAtMost(cfg: Config, st: Rx)
    requires 0 < cfg.crcRate
    ensures Left(cfg, st) <= RxChecksum.CeilDiv(st.fsize, cfg.crcRate) + 1
  {
    if st.data.cachedPos <= st.fsize {
      RxChecksum.CeilDivGrows(st.fsize - st.data.cachedPos, st.fsize, cfg.crcRate);
    }
  }

  // With nothing arriving, whatever the reads do: a transaction without error leaves
  // VALIDATE before its inactivity timer fires if and only if the read position is
  // not behind the end of the file.
  lemma ValidateLeftIff(cfg: Config, st: Rx, envs: seq<Env>)
    requires 0 < st.cap && Separated(st.chunks) && ValidConfig(cfg) && !st.com.inactFired
    requires st.Active() && st.data.sub == Validate && st.Ok()
    requires RxChecksum.CeilDiv(st.fsize, cfg.crcRate) + 1 <= |envs| <= st.inactTimer
    ensures Ticks(cfg, st, envs).0.data.sub != Validate <==> st.data.cachedPos <= st.fsize
  {
    hide Separated, Ticks, Left;
    LeftAtMost(cfg, st);
    if st.fsize < st.data.cachedPos {
      StuckUntilInactive(cfg, st, envs);
    } else {
      LeavesValidate(cfg, st, envs);
    }
  }

  // The same for the bound of the retry limit: it holds for every state but these.
  lemma EndsByRetryLimitIff(cfg: Config, st: Rx, envs: seq<Env>)
    requires 0 < st.cap && Separated(st.chunks) && ValidConfig(cfg) && !st.com.inactFired
    requires Sane(cfg, st) && st.reliable && 1 <= st.data.sub.Rank()
    requires forall i :: 0 <= i < |envs| ==> envs[i].bufOk
    requires Effort(cfg, st) <= |envs| <= st.inactTimer
    ensures !Ticks(cfg, st, envs).0.Active() <==> !Stuck(st)
  {
    hide Separated, Ticks, Effort, Sane;
    if Stuck(st) {
      StuckUntilInactive(cfg, st, envs);
    } else if st.Active() {
      EndsByRetryLimit(cfg, st, envs);
    } else {
      HoldStays(cfg, st, envs);
    }
  }

  // One data PDU does it: one that is written in whole and ends behind the end of
  // the file, while the checksum is computed.
  lemma DataMakesStuckIff(cfg: Config, st: Rx, off: nat, data: seq<uint8>, env: Env)
    requires 0 < st.cap && Acceptable(FileData(off, data))
    requires st.Active() && st.data.sub == Validate && st.Ok()
    ensures Stuck(Recv(cfg, st, Packet(!st.reliable, FileData(off, data)), env)) <==>
              && st.disk.fdOpen && (env.seekOk || st.data.cachedPos == off) && |data| <= env.written
              && st.fsize < off + |data|
  {
    hide Add, WriteAt;
  }

  // Data inside the file do no harm, and neither does any other step.
  lemma StepReceiving(cfg: Config, st: Rx, e: Event)
    requires 0 < st.cap && WellFormed(st.cap, st.chunks) && ValidConfig(cfg) && ValidEvent(e) && Receiving(cfg, st)
    requires e.Arrive? && e.pkt.pdu.FileData? && st.data.sub == Validate && st.Ok() ==>
             e.pkt.pdu.offset + |e.pkt.pdu.data| <= st.fsize
    ensures Receiving(cfg, Step(cfg, st, e))
  {
    hide Recv, Tick, WellFormed;
    assert Separated(st.chunks) by { ListSeparated(st); }
    StepSane(cfg, st, e);
    SubStateMonotone(cfg, st, e);
    match e {
      case Arrive(pkt, env) =>
        RecvHandles(cfg, st, pkt, env);
        ArriveAhead(cfg, st, pkt, env);
      case Wakeup(env) =>
        TickKeepsList(cfg, st, env);
        TickAhead(cfg, st, env);
      case _ =>
    }
  }

  lemma ListSeparated(st: Rx)
    requires WellFormed(st.cap, st.chunks)
    ensures Separated(st.chunks)
  {
  }

  lemma ArriveAhead(cfg: Config, st: Rx, pkt: Packet, env: Env)
    requires 0 < st.cap && Acceptable(pkt.pdu) && Ahead(st)
    requires pkt.pdu.FileData? && st.data.sub == Validate && st.Ok() ==> pkt.pdu.offset + |pkt.pdu.data| <= st.fsize
    ensures Ahead(Recv(cfg, st, pkt, env))
  {
    hide ProcessFd, RecvEof, RecvMd;
    if st.data.sub == Validate {
      if pkt.pdu.FileData? && st.Ok() {
        DataAhead(st, pkt.pdu.offset, pkt.pdu.data, env);
      } else if pkt.pdu.Eof? {
        EofAhead(cfg, st, pkt.pdu.cc, pkt.pdu.crc, pkt.pdu.size);
      }
    } else {
      RecvHandles(cfg, st, pkt, env);
      hide Recv, Add;
    }
  }

  lemma DataAhead(st: Rx, off: nat, data: seq<uint8>, env: Env)
    requires 0 < st.cap && off + |data| <= st.fsize
    ensures Ahead(ProcessFd(st, off, data, env))
  {
    hide Add, WriteAt;
  }

  lemma EofAhead(cfg: Config, st: Rx, cc: nat, crc: nat, size: nat)
    requires Ahead(st)
    ensures Ahead(RecvEof(cfg, st, cc, crc, size))
  {
  }

  lemma TickAhead(cfg: Config, st: Rx, env: Env)
    requires 0 < st.cap && Separated(st.chunks) && ValidConfig(cfg) && Ahead(st)
    ensures Ahead(Tick(cfg, st, env).rx)
  {
    hide CheckState, Maintain, Separated, InactivityTick, AckTimerTick;
    var b := AckTimerTick(InactivityTick(st));
    TimersTimed(st);
    if st.Active() {
      CheckAhead(cfg, b, env);
    }
    MaintainQuiet(cfg, TickState(cfg, st, env), env.bufOk);
  }

  lemma CheckAhead(cfg: Config, st: Rx, env: Env)
    requires Separated(st.chunks) && ValidConfig(cfg) && Ahead(st) && st.Active()
    ensures Ahead(CheckState(cfg, st, env))
  {
    hide Separated;
    if st.data.sub == Validate {
      ValidateCheck(cfg, st, env);
      hide CheckState;
    } else {
      CheckAdvances(cfg, st, env);
      hide Check;
    }
  }

  // The checksum is only computed of a file whose size came with the metadata.
  ghost predicate Known(st: Rx) { st.data.sub == Validate && st.Ok() ==> st.flags.mdRecv }

  lemma StepKnown(cfg: Config, st: Rx, e: Event)
    requires 0 < st.cap && Separated(st.chunks) && 0 < cfg.crcBlock && ValidEvent(e) && Known(st)
    ensures Known(Step(cfg, st, e))
  {
    hide Recv, Tick, Separated, Add;
    match e {
      case Arrive(pkt, env) => RecvHandles(cfg, st, pkt, env);
      case Wakeup(env) => TickKnown(cfg, st, env);
      case _ =>
    }
  }

  lemma TickKnown(cfg: Config, st: Rx, env: Env)
    requires 0 < st.cap && Separated(st.chunks) && 0 < cfg.crcBlock && Known(st)
    ensures Known(Tick(cfg, st, env).rx)
  {
    hide CheckState, Maintain, Separated, InactivityTick, AckTimerTick;
    var b := AckTimerTick(InactivityTick(st));
    TimersTimed(st);
    if st.Active() {
      CheckKnown(cfg, b, env);
    }
    MaintainQuiet(cfg, TickState(cfg, st, env), env.bufOk);
  }

  lemma CheckKnown(cfg: Config, st: Rx, env: Env)
    requires Separated(st.chunks) && 0 < cfg.crcBlock && Known(st)
    ensures Known(CheckState(cfg, st, env))
  {
    hide Check, Enter, Separated;
    var (a, next) := Check(cfg, st, env);
    CheckChecked(cfg, st, env);
    ValidatesKnown(cfg, st, env);
    EnterEntered(cfg, a, next, env);
  }

  lemma ValidatesKnown(cfg: Config, st: Rx, env: Env)
    requires Separated(st.chunks) && 0 < cfg.crcBlock && Known(st)
    ensures var (a, next) := Check(cfg, st, env);
            next == Validate && a.Ok() ==> st.flags.mdRecv && st.Ok()
  {
    hide Separated, Gaps.Reported, CrcLoop, Finalize;
  }
}
