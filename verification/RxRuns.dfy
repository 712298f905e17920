/** What every run of a receiving transaction keeps, whatever arrives and however the calls it makes end. */
module RxRuns {
  import opened Cfdp
  import opened Crc
  import opened ChunkSpec
  import Gaps
  import opened RxSpec

  datatype Event = Arrive(pkt: Packet, env: Env) | Wakeup(env: Env) | CancelCmd | AbandonCmd

  predicate ValidEvent(e: Event) { e.Arrive? ==> Acceptable(e.pkt.pdu) }

  function Step(cfg: Config, st: Rx, e: Event): Rx
    requires 0 < st.cap && Separated(st.chunks) && 0 < cfg.crcBlock && ValidEvent(e)
  {
    match e
    case Arrive(pkt, env) => Recv(cfg, st, pkt, env)
    case Wakeup(env) => Tick(cfg, st, env).rx
    case CancelCmd => Cancel(st)
    case AbandonCmd => Finish(cfg, st)
  }

  // ---------- frames: what the steps leave alone ----------

  // How a handler may change the state.
  ghost predicate Handles(st: Rx, p: Pdu, t: Rx)
    requires 0 < st.cap
  {
    && t.phase == st.phase && t.reliable == st.reliable && t.cap == st.cap
    && t.data.sub == st.data.sub && t.data.finDc == st.data.finDc && t.data.finFs == st.data.finFs
    && t.crc == st.crc && t.com.isComplete == st.com.isComplete && t.com.inactFired == st.com.inactFired
    && t.flags.tempCreated == st.flags.tempCreated && t.disk.fdOpen == st.disk.fdOpen
    && t.disk.retained == st.disk.retained
    && t.flags.sendNak == st.flags.sendNak && t.flags.sendFin == st.flags.sendFin
    && (t.data.acknak == st.data.acknak || t.data.acknak == 0)
    && (!st.Ok() ==> t.status == st.status)
    && (st.flags.mdRecv ==> t.flags.mdRecv && t.fsize == st.fsize)
    && (st.flags.eofCount != 0 ==>
          t.flags.eofCount != 0 && t.data.eofCrc == st.data.eofCrc && t.data.eofSize == st.data.eofSize)
    && (t.chunks == st.chunks ||
        (p.FileData? && st.Ok() && st.phase != Hold && t.Ok() &&
          t.chunks == Add(st.cap, st.chunks, Chunk(p.offset, |p.data|))))
    && (t.disk.temp == st.disk.temp || (p.FileData? && st.Ok() && st.phase != Hold))
  }

  lemma RecvHandles(cfg: Config, st: Rx, pkt: Packet, env: Env)
    requires 0 < st.cap && Acceptable(pkt.pdu)
    ensures Handles(st, pkt.pdu, Recv(cfg, st, pkt, env))
  {
    DispatchHandles(cfg, st, pkt, env);
    hide Dispatch, Add;
  }

  lemma DispatchHandles(cfg: Config, st: Rx, pkt: Packet, env: Env)
    requires 0 < st.cap && Acceptable(pkt.pdu)
    ensures Handles(st, pkt.pdu, Dispatch(cfg, st, pkt, env))
  {
    hide Handle, RecvEof, Add;
    if st.phase == Hold {
      if pkt.pdu.Eof? {
        RecvEofHandles(cfg, st, pkt.pdu);
      }
    } else {
      HandleHandles(cfg, st, pkt.pdu, env);
    }
  }

  lemma RecvEofHandles(cfg: Config, st: Rx, p: Pdu)
    requires 0 < st.cap && p.Eof?
    ensures Handles(st, p, RecvEof(cfg, st, p.cc, p.crc, p.size))
  {
    hide Add;
  }

  lemma HandleHandles(cfg: Config, st: Rx, p: Pdu, env: Env)
    requires 0 < st.cap && Acceptable(p) && st.phase != Hold
    ensures Handles(st, p, Handle(cfg, st, p, env))
  {
    hide Add, WriteAt, RecvEof;
    if p.FileData? {
      hide RecvMd;
    } else if !p.IsFileData() && Handled(st.reliable, st.data.sub, p.Directive()) {
      hide ProcessFd;
      if p.Eof? {
        RecvEofHandles(cfg, st, p);
      }
    }
  }

  // ---------- the sub-state never goes back ----------

  lemma CheckAdvances(cfg: Config, st: Rx, env: Env)
    requires Separated(st.chunks) && 0 < cfg.crcBlock
    ensures st.data.sub.Rank() <= Check(cfg, st, env).1.Rank()
    ensures Check(cfg, st, env).0.data.sub == st.data.sub
  {
    hide CrcLoop, Gaps.Reported, Separated;
  }

  // How deciding the next sub-state changes the state.
  ghost predicate Checked(cfg: Config, st: Rx, t: Rx, next: Sub) {
    && t.phase == st.phase && t.reliable == st.reliable
    && t.inactTimer == st.inactTimer && t.ackTimer == st.ackTimer
    && t.com.inactFired == st.com.inactFired && t.com.ackArmed == st.com.ackArmed
    && t.flags == st.flags.(sendNak := t.flags.sendNak, sendFin := t.flags.sendFin)
    && t.data.sub == st.data.sub
    && (!st.Ok() ==> t.status == st.status)
    && (st.data.acknak <= cfg.ackLimit ==> t.data.acknak <= cfg.ackLimit)
    && (t.flags.sendNak == st.flags.sendNak || (t.flags.sendNak && next == st.data.sub == DataEof))
    && (t.flags.sendFin == st.flags.sendFin || (t.flags.sendFin && next == st.data.sub == FinAck))
  }

  lemma CheckChecked(cfg: Config, st: Rx, env: Env)
    requires Separated(st.chunks) && 0 < cfg.crcBlock
    ensures Checked(cfg, st, Check(cfg, st, env).0, Check(cfg, st, env).1)
  {
    hide CheckDataEof, CheckValidate, CheckFileStore, CheckFinAck, Separated;
    match st.data.sub {
      case DataEof => CheckDataEofChecked(cfg, st);
      case Validate => CheckValidateChecked(cfg, st, env);
      case FileStore => CheckFileStoreChecked(cfg, st, env);
      case FinAck => CheckFinAckChecked(cfg, st);
      case _ =>
    }
  }

  lemma CheckDataEofChecked(cfg: Config, st: Rx)
    requires Separated(st.chunks) && st.data.sub == DataEof
    ensures Checked(cfg, st, CheckDataEof(cfg, st).0, CheckDataEof(cfg, st).1)
  {
    hide CheckComplete, Separated;
  }

  lemma CheckValidateChecked(cfg: Config, st: Rx, env: Env)
    requires 0 < cfg.crcBlock
    ensures Checked(cfg, st, CheckValidate(cfg, st, env).0, CheckValidate(cfg, st, env).1)
  {
    hide CrcLoop, Finalize;
  }

  lemma CheckFileStoreChecked(cfg: Config, st: Rx, env: Env)
    ensures Checked(cfg, st, CheckFileStore(st, env).0, CheckFileStore(st, env).1)
  {
  }

  lemma CheckFinAckChecked(cfg: Config, st: Rx)
    requires st.data.sub == FinAck
    ensures Checked(cfg, st, CheckFinAck(cfg, st).0, CheckFinAck(cfg, st).1)
  {
  }

  // How entering a sub-state changes the state.
  ghost predicate Entered(cfg: Config, st: Rx, next: Sub, t: Rx) {
    && t.data.sub == next && !t.com.ackArmed
    && t.phase == (if next == Complete then Hold else st.phase) && t.reliable == st.reliable
    && t.inactTimer == (if next == Complete then 2 * cfg.ackTicks else st.inactTimer)
    && t.ackTimer == st.ackTimer
    && t.com.inactFired == st.com.inactFired
    && t.flags == st.flags.(sendNak := t.flags.sendNak, sendFin := t.flags.sendFin)
    && (!st.Ok() ==> t.status == st.status)
    && t.data.acknak == (if next == DataEof || next == FinAck then 0 else st.data.acknak)
    && t.flags.sendNak == (st.flags.sendNak || (next == DataEof && st.reliable))
    && t.flags.sendFin == (st.flags.sendFin || next == FinAck)
  }

  lemma EnterEntered(cfg: Config, st: Rx, next: Sub, env: Env)
    ensures Entered(cfg, st, next, Enter(cfg, st, next, env))
  {
    hide Entered;
    var a := st.(data := st.data.(sub := next), com := st.com.(ackArmed := false));
    match next {
      case DataEof =>
        var t := a.(data := a.data.(acknak := 0), flags := a.flags.(sendNak := a.reliable || a.flags.sendNak));
        EnterOther(cfg, st, t, next);
      case Validate => StartEnters(cfg, st, env);
      case FinAck =>
        EnterOther(cfg, st, a.(data := a.data.(acknak := 0), flags := a.flags.(sendFin := true)), next);
      case Complete => CompleteEnters(cfg, st);
      case _ => EnterOther(cfg, st, a, next);
    }
  }

  lemma EnterOther(cfg: Config, st: Rx, t: Rx, next: Sub)
    requires next != Complete
    requires t.data.sub == next && !t.com.ackArmed && t.phase == st.phase && t.reliable == st.reliable
    requires t.inactTimer == st.inactTimer && t.ackTimer == st.ackTimer && t.com.inactFired == st.com.inactFired
    requires t.status == st.status && t.flags == st.flags.(sendNak := t.flags.sendNak, sendFin := t.flags.sendFin)
    requires t.data.acknak == (if next == DataEof || next == FinAck then 0 else st.data.acknak)
    requires t.flags.sendNak == (st.flags.sendNak || (next == DataEof && st.reliable))
    requires t.flags.sendFin == (st.flags.sendFin || next == FinAck)
    ensures Entered(cfg, st, next, t)
  {
  }

  lemma CompleteEnters(cfg: Config, st: Rx)
    ensures Entered(cfg, st, Complete,
            Finish(cfg, st.(data := st.data.(sub := Complete), com := st.com.(ackArmed := false))))
  {
  }

  lemma StartEnters(cfg: Config, st: Rx, env: Env)
    ensures Entered(cfg, st, Validate,
                    CalcCrcStart(st.(data := st.data.(sub := Validate), com := st.com.(ackArmed := false)), env))
  {
  }

  // How sending changes the state: counters and the ack timer only.
  ghost predicate Quiet(st: Rx, t: Rx) {
    t == st.(ackTimer := t.ackTimer, com := st.com.(ackArmed := t.com.ackArmed),
             flags := st.flags.(eofAckCount := t.flags.eofAckCount, sendNak := t.flags.sendNak,
               sendFin := t.flags.sendFin))
  }

  lemma MaintainQuiet(cfg: Config, st: Rx, bufOk: bool)
    requires Separated(st.chunks) && 0 < st.cap
    ensures Quiet(st, Maintain(cfg, st, bufOk).0)
  {
    SendNakQuiet(cfg, st);
    SendFinQuiet(cfg, st);
    hide SendNak, SendFin, Separated;
  }

  lemma SendNakQuiet(cfg: Config, st: Rx)
    requires Separated(st.chunks) && 0 < st.cap
    ensures Quiet(st, SendNak(cfg, st).0)
  {
    hide NakSegs, NakGaps, Separated, Outgoing, ArmAck, Quiet;
    RequestSettled(cfg, st);
  }

  lemma RequestSettled(cfg: Config, st: Rx)
    ensures var a := st.(flags := st.flags.(sendNak := false));
            Quiet(st, a) && Quiet(st, ArmAck(cfg, a))
  {
  }

  lemma SendFinQuiet(cfg: Config, st: Rx)
    ensures Quiet(st, SendFin(cfg, st).0)
  {
  }

  // How the timers change the state before a state check.
  ghost predicate Timed(st: Rx, t: Rx) {
    && t == st.(inactTimer := t.inactTimer, ackTimer := t.ackTimer, status := t.status,
                com := st.com.(inactFired := t.com.inactFired, ackArmed := t.com.ackArmed))
    && (t.status == st.status || (st.Ok() && !t.Ok()))
  }

  lemma TimersTimed(st: Rx)
    ensures Timed(st, InactivityTick(st)) && Timed(st, AckTimerTick(InactivityTick(st)))
  {
  }

  lemma CheckStateAdvances(cfg: Config, st: Rx, env: Env)
    requires Separated(st.chunks) && 0 < cfg.crcBlock
    ensures st.data.sub.Rank() <= CheckState(cfg, st, env).data.sub.Rank()
    ensures CheckState(cfg, st, env).data.sub == Check(cfg, st, env).1
  {
    CheckAdvances(cfg, st, env);
    hide Check, Separated;
  }

  lemma TickAdvances(cfg: Config, st: Rx, env: Env)
    requires Separated(st.chunks) && 0 < st.cap && 0 < cfg.crcBlock
    ensures st.data.sub.Rank() <= Tick(cfg, st, env).rx.data.sub.Rank()
  {
    TimersTimed(st);
    CheckStateAdvances(cfg, AckTimerTick(InactivityTick(st)), env);
    MaintainQuiet(cfg, TickState(cfg, st, env), env.bufOk);
    hide CheckState, Maintain, InactivityTick, AckTimerTick, Separated;
  }

  // Over every run the sub-state rank never decreases.
  lemma SubStateMonotone(cfg: Config, st: Rx, e: Event)
    requires 0 < st.cap && Separated(st.chunks) && 0 < cfg.crcBlock && ValidEvent(e)
    ensures st.data.sub.Rank() <= Step(cfg, st, e).data.sub.Rank()
  {
    match e {
      case Arrive(pkt, env) =>
        RecvHandles(cfg, st, pkt, env);
      case Wakeup(env) =>
        TickAdvances(cfg, st, env);
      case _ =>
    }
  }

  // ---------- runs ----------

  lemma StepKeepsChunks(cfg: Config, st: Rx, e: Event)
    requires 0 < st.cap && WellFormed(st.cap, st.chunks) && 0 < cfg.crcBlock && ValidEvent(e)
    ensures Step(cfg, st, e).cap == st.cap && WellFormed(st.cap, Step(cfg, st, e).chunks)
    ensures Step(cfg, st, e).chunks == st.chunks ||
            (e.Arrive? && e.pkt.pdu.FileData? && st.Ok() && st.phase != Hold &&
             Step(cfg, st, e).chunks == Add(st.cap, st.chunks, Chunk(e.pkt.pdu.offset, |e.pkt.pdu.data|)))
  {
    match e {
      case Arrive(pkt, env) =>
        hide Recv, Add, Separated;
        RecvHandles(cfg, st, pkt, env);
        if pkt.pdu.FileData? {
          AddKeepsInvariant(st.cap, st.chunks, Chunk(pkt.pdu.offset, |pkt.pdu.data|));
        }
      case Wakeup(env) =>
        hide Maintain, TickState, Separated;
        MaintainQuiet(cfg, TickState(cfg, st, env), env.bufOk);
      case _ =>
    }
  }

  ghost function Run(cfg: Config, st: Rx, es: seq<Event>): (r: Rx)
    requires 0 < st.cap && WellFormed(st.cap, st.chunks) && 0 < cfg.crcBlock
    requires forall k :: 0 <= k < |es| ==> ValidEvent(es[k])
    ensures r.cap == st.cap && WellFormed(r.cap, r.chunks)
    decreases |es|
  {
    if es == [] then st
    else
      var last := Run(cfg, st, es[..|es| - 1]);
      StepKeepsChunks(cfg, last, es[|es| - 1]);
      Step(cfg, last, es[|es| - 1])
  }

  // ---------- wakeups with nothing arriving ----------

  lemma TickKeepsList(cfg: Config, st: Rx, env: Env)
    requires 0 < st.cap && Separated(st.chunks) && 0 < cfg.crcBlock
    ensures Tick(cfg, st, env).rx.cap == st.cap && Tick(cfg, st, env).rx.chunks == st.chunks
    ensures Tick(cfg, st, env).rx.reliable == st.reliable
  {
    hide CheckState, Maintain, InactivityTick, AckTimerTick, Separated;
    var b := AckTimerTick(InactivityTick(st));
    TimersTimed(st);
    CheckStateReliable(cfg, b, env);
    MaintainQuiet(cfg, TickState(cfg, st, env), env.bufOk);
  }

  lemma CheckStateReliable(cfg: Config, st: Rx, env: Env)
    requires Separated(st.chunks) && 0 < cfg.crcBlock
    ensures CheckState(cfg, st, env).reliable == st.reliable
  {
    hide Check, Enter, Separated;
    CheckChecked(cfg, st, env);
    EnterEntered(cfg, Check(cfg, st, env).0, Check(cfg, st, env).1, env);
  }

  // What only PDUs change.
  ghost predicate Notes(st: Rx, t: Rx) {
    && t.fsize == st.fsize && t.flags.tempCreated == st.flags.tempCreated && t.flags.mdRecv == st.flags.mdRecv
    && t.data.eofCrc == st.data.eofCrc && t.data.peerCc == st.data.peerCc
    && t.flags.finAckRecv == st.flags.finAckRecv && t.com.closeReq == st.com.closeReq
  }

  lemma TickKeepsNotes(cfg: Config, st: Rx, env: Env)
    requires 0 < st.cap && Separated(st.chunks) && 0 < cfg.crcBlock
    ensures var t := Tick(cfg, st, env).rx;
            Notes(st, t)
  {
    hide InactivityTick, AckTimerTick, CheckState, Maintain, Separated;
    TimersTimed(st);
    CheckKeepsNotes(cfg, AckTimerTick(InactivityTick(st)), env);
    MaintainQuiet(cfg, TickState(cfg, st, env), env.bufOk);
  }

  lemma CheckKeepsNotes(cfg: Config, st: Rx, env: Env)
    requires Separated(st.chunks) && 0 < cfg.crcBlock
    ensures var t := CheckState(cfg, st, env);
            Notes(st, t)
  {
    hide Check, Enter, Separated;
    var (a, next) := Check(cfg, st, env);
    DecisionKeepsNotes(cfg, st, env);
    EnterKeepsNotes(cfg, a, next, env);
  }

  lemma DecisionKeepsNotes(cfg: Config, st: Rx, env: Env)
    requires Separated(st.chunks) && 0 < cfg.crcBlock
    ensures Notes(st, Check(cfg, st, env).0)
  {
    hide Separated, CheckDataEof, CalcCrcChunk, HandleFileRetention, CheckFinAck, Notes;
    NotesStay(st);
    match st.data.sub {
      case DataEof => EofKeepsNotes(cfg, st);
      case Validate => ChunkKeepsNotes(cfg, st, env);
      case FileStore => StoreKeepsNotes(st, env);
      case FinAck => FinKeepsNotes(cfg, st);
      case _ =>
    }
  }

  lemma NotesStay(st: Rx)
    ensures Notes(st, st)
  {
  }

  lemma EofKeepsNotes(cfg: Config, st: Rx)
    requires Separated(st.chunks)
    ensures Notes(st, CheckDataEof(cfg, st).0)
  {
    hide Separated, CheckComplete;
  }

  lemma ChunkKeepsNotes(cfg: Config, st: Rx, env: Env)
    requires 0 < cfg.crcBlock
    ensures Notes(st, CalcCrcChunk(cfg, st, env))
  {
    hide CrcLoop, Finalize;
  }

  lemma StoreKeepsNotes(st: Rx, env: Env)
    ensures Notes(st, HandleFileRetention(st, env))
  {
  }

  lemma FinKeepsNotes(cfg: Config, st: Rx)
    ensures Notes(st, CheckFinAck(cfg, st).0)
  {
  }

  lemma EnterKeepsNotes(cfg: Config, st: Rx, next: Sub, env: Env)
    ensures var t := Enter(cfg, st, next, env);
            Notes(st, t)
  {
  }

  // The state after a number of wakeups, and what they sent.
  function Ticks(cfg: Config, st: Rx, envs: seq<Env>): (Rx, seq<Packet>)
    requires 0 < st.cap && Separated(st.chunks) && 0 < cfg.crcBlock
    decreases |envs|
  {
    if envs == [] then (st, [])
    else
      TickKeepsList(cfg, st, envs[0]);
      var r := Tick(cfg, st, envs[0]);
      var (t, rest) := Ticks(cfg, r.rx, envs[1..]);
      (t, r.sent + rest)
  }

  // Holdover lasts.
  lemma {:induction false} HoldStays(cfg: Config, st: Rx, envs: seq<Env>)
    requires 0 < st.cap && Separated(st.chunks) && 0 < cfg.crcBlock && !st.Active()
    ensures !Ticks(cfg, st, envs).0.Active()
    decreases |envs|
  {
    if envs != [] {
      hide Tick, Separated;
      TickKeepsList(cfg, st, envs[0]);
      IdleTick(cfg, st, envs[0]);
      HoldStays(cfg, Tick(cfg, st, envs[0]).rx, envs[1..]);
    }
  }

  lemma IdleTick(cfg: Config, st: Rx, env: Env)
    requires 0 < st.cap && Separated(st.chunks) && 0 < cfg.crcBlock && !st.Active()
    ensures TickState(cfg, st, env) == InactivityTick(st) && !Tick(cfg, st, env).rx.Active()
  {
    hide Maintain, Separated;
    MaintainQuiet(cfg, TickState(cfg, st, env), env.bufOk);
  }

  lemma {:induction false} TicksKeepList(cfg: Config, st: Rx, envs: seq<Env>)
    requires 0 < st.cap && Separated(st.chunks) && 0 < cfg.crcBlock
    ensures Ticks(cfg, st, envs).0.cap == st.cap && Ticks(cfg, st, envs).0.chunks == st.chunks
    ensures st.data.sub.Rank() <= Ticks(cfg, st, envs).0.data.sub.Rank()
    decreases |envs|
  {
    if envs != [] {
      hide Tick, Separated;
      TickKeepsList(cfg, st, envs[0]);
      TickAdvances(cfg, st, envs[0]);
      TicksKeepList(cfg, Tick(cfg, st, envs[0]).rx, envs[1..]);
    }
  }

  // ---------- requests are a matter of class 2 while it is active ----------

  // A request still pending in FINACK holds back the FIN, and so the holdover.
  ghost predicate NakInR2(st: Rx) {
    && (st.phase == R1 ==> !st.reliable)
    && (st.flags.sendNak ==>
          st.phase == R2 && st.reliable && 1 <= st.data.sub.Rank() <= 4 && (st.data.sub == FinAck ==> st.flags.sendFin))
  }

  lemma CheckStateNak(cfg: Config, st: Rx, env: Env)
    requires Separated(st.chunks) && 0 < cfg.crcBlock && NakInR2(st) && st.Active()
    ensures NakInR2(CheckState(cfg, st, env))
  {
    hide Check, Enter, Separated;
    var (a, next) := Check(cfg, st, env);
    CheckChecked(cfg, st, env);
    CheckAdvances(cfg, st, env);
    WaitsForFin(cfg, st, env);
    EnterEntered(cfg, a, next, env);
  }

  lemma WaitsForFin(cfg: Config, st: Rx, env: Env)
    requires Separated(st.chunks) && 0 < cfg.crcBlock
    ensures var (a, next) := Check(cfg, st, env);
            && (st.data.sub == FinAck && st.flags.sendFin ==> next == FinAck && a == st)
            && (st.reliable && next == Complete ==> st.data.sub == FinAck || st.data.sub == Complete)
            && (a.flags.sendNak && !st.flags.sendNak ==> st.reliable && next == DataEof)
            && (st.data.sub == DataNormal ==> next == DataNormal || next == DataEof || next == FileStore)
            && a.phase == st.phase && a.flags.sendNak == (st.flags.sendNak || a.flags.sendNak)
  {
    hide Separated, Gaps.Reported, CrcLoop, Finalize;
  }

  lemma MaintainNak(cfg: Config, st: Rx, bufOk: bool)
    requires 0 < st.cap && Separated(st.chunks) && NakInR2(st)
    ensures NakInR2(Maintain(cfg, st, bufOk).0)
    ensures forall p :: p in Maintain(cfg, st, bufOk).1 && p.pdu.Nak? ==> st.phase == R2
  {
    hide Separated, NakGaps, NakSegs, ToConditionCode;
  }

  lemma TickNak(cfg: Config, st: Rx, env: Env)
    requires 0 < st.cap && Separated(st.chunks) && 0 < cfg.crcBlock && NakInR2(st)
    ensures NakInR2(Tick(cfg, st, env).rx)
    ensures forall p :: p in Tick(cfg, st, env).sent && p.pdu.Nak? ==> TickState(cfg, st, env).phase == R2
  {
    hide CheckState, Maintain, InactivityTick, AckTimerTick, Separated;
    var b := AckTimerTick(InactivityTick(st));
    TimersTimed(st);
    if st.Active() {
      CheckStateNak(cfg, b, env);
    }
    MaintainNak(cfg, TickState(cfg, st, env), env.bufOk);
  }

  lemma StepNak(cfg: Config, st: Rx, e: Event)
    requires 0 < st.cap && Separated(st.chunks) && 0 < cfg.crcBlock && ValidEvent(e) && NakInR2(st) && !e.AbandonCmd?
    ensures NakInR2(Step(cfg, st, e))
  {
    hide Recv, Tick, Add, Separated;
    match e {
      case Arrive(pkt, env) => RecvHandles(cfg, st, pkt, env);
      case Wakeup(env) => TickNak(cfg, st, env);
      case _ =>
    }
  }

  // Over every run of a new transaction that is not abandoned, whatever arrives and
  // whether there are buffers or not.
  lemma {:induction false} RunNak(cfg: Config, unack: bool, list: Option<Handed>, stale: Status, createOk: bool,
                                  previous: Option<seq<uint8>>, es: seq<Event>)
    requires Usable(list) && 0 < cfg.crcBlock
    requires forall k :: 0 <= k < |es| ==> ValidEvent(es[k]) && !es[k].AbandonCmd?
    ensures var start := Setup(cfg, unack, list, stale, createOk, previous);
            0 < start.cap && WellFormed(start.cap, start.chunks) && NakInR2(Run(cfg, start, es))
    decreases |es|
  {
    SetupList(cfg, unack, list, stale, createOk, previous);
    if es != [] {
      hide Step, NakInR2, Setup;
      RunNak(cfg, unack, list, stale, createOk, previous, es[..|es| - 1]);
      var last := Run(cfg, Setup(cfg, unack, list, stale, createOk, previous), es[..|es| - 1]);
      StepNak(cfg, last, es[|es| - 1]);
    }
  }

  // A new transaction has the list it was handed.
  lemma SetupList(cfg: Config, unack: bool, list: Option<Handed>, stale: Status, createOk: bool,
                  previous: Option<seq<uint8>>)
    requires Usable(list)
    ensures var st := Setup(cfg, unack, list, stale, createOk, previous);
            st.cap == Got(list).cap && st.chunks == Got(list).chunks && 0 < st.cap && WellFormed(st.cap, st.chunks)
  {
    hide WellFormed;
    GotProper(list);
  }

  // ---------- error freeze ----------

  // What an error leaves for good. The temporary file can only still be discarded.
  ghost predicate Frozen(st: Rx, t: Rx) {
    && t.status == st.status
    && t.chunks == st.chunks
    && t.disk.retained == st.disk.retained
    && (t.disk.temp == st.disk.temp || t.disk.temp == [])
  }

  lemma CheckFrozen(cfg: Config, st: Rx, env: Env)
    requires Separated(st.chunks) && 0 < cfg.crcBlock && !st.Ok()
    ensures Frozen(st, Check(cfg, st, env).0)
  {
    hide CrcLoop, Separated, Gaps.Reported;
  }

  lemma CheckStateFrozen(cfg: Config, st: Rx, env: Env)
    requires Separated(st.chunks) && 0 < cfg.crcBlock && !st.Ok()
    ensures Frozen(st, CheckState(cfg, st, env))
  {
    CheckFrozen(cfg, st, env);
    hide Check, Separated;
  }

  lemma StepFrozen(cfg: Config, st: Rx, e: Event)
    requires 0 < st.cap && Separated(st.chunks) && 0 < cfg.crcBlock && ValidEvent(e) && !st.Ok()
    ensures Frozen(st, Step(cfg, st, e))
  {
    match e {
      case Arrive(pkt, env) =>
        RecvHandles(cfg, st, pkt, env);
        hide Recv, Add;
      case Wakeup(env) =>
        TimersTimed(st);
        CheckStateFrozen(cfg, AckTimerTick(InactivityTick(st)), env);
        MaintainQuiet(cfg, TickState(cfg, st, env), env.bufOk);
        hide CheckState, Maintain, InactivityTick, AckTimerTick, Separated;
      case _ =>
    }
  }

  // From the first error on, in every run: the status stays what it is, no file
  // data changes the chunk list or the temporary file, and nothing is retained.
  lemma {:induction false} ErrorFreeze(cfg: Config, st: Rx, es: seq<Event>)
    requires 0 < st.cap && WellFormed(st.cap, st.chunks) && 0 < cfg.crcBlock && !st.Ok()
    requires forall k :: 0 <= k < |es| ==> ValidEvent(es[k])
    ensures Frozen(st, Run(cfg, st, es))
    decreases |es|
  {
    if es != [] {
      ErrorFreeze(cfg, st, es[..|es| - 1]);
      StepFrozen(cfg, Run(cfg, st, es[..|es| - 1]), es[|es| - 1]);
    }
  }

  // ---------- retention safety ----------

  // Byte x of the file was in some data PDU of the run.
  ghost predicate Arrived(es: seq<Event>, x: int) {
    exists k :: 0 <= k < |es| && es[k].Arrive? && es[k].pkt.pdu.FileData? &&
                Chunk(es[k].pkt.pdu.offset, |es[k].pkt.pdu.data|).Has(x)
  }

  lemma ArrivedLater(es: seq<Event>, e: Event, x: int)
    ensures Arrived(es, x) ==> Arrived(es + [e], x)
    ensures e.Arrive? && e.pkt.pdu.FileData? && Chunk(e.pkt.pdu.offset, |e.pkt.pdu.data|).Has(x) ==>
            Arrived(es + [e], x)
  {
    if k :| 0 <= k < |es| && es[k].Arrive? && es[k].pkt.pdu.FileData? &&
            Chunk(es[k].pkt.pdu.offset, |es[k].pkt.pdu.data|).Has(x) {
      assert (es + [e])[k] == es[k];
    }
    assert (es + [e])[|es|] == e;
  }

  // Every byte of the file arrived, or was in the list `left` already.
  ghost predicate AllArrived(es: seq<Event>, left: seq<Chunk>, fsize: nat) {
    forall x :: 0 <= x < fsize ==> Arrived(es, x) || Covers(left, x)
  }

  // Metadata and EOF are in and every byte of the file was received, as far as the
  // list does not claim it from the start.
  ghost predicate Whole(st: Rx, es: seq<Event>, left: seq<Chunk>) {
    st.flags.mdRecv && st.flags.eofCount != 0 && AllArrived(es, left, st.fsize)
  }

  ghost predicate Inv(st: Rx, es: seq<Event>, left: seq<Chunk>) {
    && (forall x :: Covers(st.chunks, x) ==> Arrived(es, x) || Covers(left, x))
    && (st.com.isComplete ==> Whole(st, es, left))
    && ((st.data.sub == Validate || st.data.sub == FileStore) && st.Ok() ==>
          st.com.isComplete && st.fsize == st.data.eofSize)
    && (st.data.finFs == FS_RETAINED ==> Reported(st))
  }

  // What a RETAINED report stands for.
  ghost predicate Reported(st: Rx) {
    && st.data.finDc == DC_COMPLETE
    && st.disk.retained.Some?
    && st.com.isComplete
    && st.fsize == st.data.eofSize
    && st.crc.result == st.data.eofCrc
    && 4 <= st.data.sub.Rank()
    && !st.disk.fdOpen
  }

  lemma ArriveInv(cfg: Config, st: Rx, es: seq<Event>, left: seq<Chunk>, pkt: Packet, env: Env)
    requires 0 < st.cap && WellFormed(st.cap, st.chunks) && Acceptable(pkt.pdu) && Inv(st, es, left)
    ensures Inv(Recv(cfg, st, pkt, env), es + [Arrive(pkt, env)], left)
  {
    var t := Recv(cfg, st, pkt, env);
    RecvHandles(cfg, st, pkt, env);
    hide Recv, WellFormed;
    forall x ensures Covers(t.chunks, x) || Arrived(es, x) ==> Arrived(es + [Arrive(pkt, env)], x) || Covers(left, x) {
      ArrivedLater(es, Arrive(pkt, env), x);
      if t.chunks != st.chunks {
        AddSound(st.cap, st.chunks, Chunk(pkt.pdu.offset, |pkt.pdu.data|), x);
      }
    }
  }

  lemma AddSound(cap: nat, s: seq<Chunk>, c: Chunk, x: int)
    requires 0 < cap && WellFormed(cap, s) && Addable(c)
    ensures Covers(Add(cap, s, c), x) ==> Covers(s, x) || c.Has(x)
  {
    AddKeepsInvariant(cap, s, c);
    hide Add, Classify, Separated;
  }

  lemma QuietInv(st: Rx, t: Rx, es: seq<Event>, left: seq<Chunk>)
    requires Quiet(st, t) || Timed(st, t)
    requires Inv(st, es, left)
    ensures Inv(t, es, left)
  {
  }

  lemma LaterInv(st: Rx, es: seq<Event>, left: seq<Chunk>, e: Event)
    requires Inv(st, es, left)
    ensures Inv(st, es + [e], left)
  {
    forall x ensures Arrived(es, x) ==> Arrived(es + [e], x) {
      ArrivedLater(es, e, x);
    }
  }

  // Inv between deciding the next sub-state and entering it.
  ghost predicate Decided(st: Rx, next: Sub, es: seq<Event>, left: seq<Chunk>) {
    && (forall x :: Covers(st.chunks, x) ==> Arrived(es, x) || Covers(left, x))
    && (st.com.isComplete ==> Whole(st, es, left))
    && (next == Validate ==> st.com.isComplete)
    && (next == FileStore && st.Ok() ==> st.com.isComplete && st.fsize == st.data.eofSize)
    && (next == Validate && st.data.sub == Validate && st.Ok() ==> st.fsize == st.data.eofSize)
    && (st.data.finFs == FS_RETAINED ==> Reported(st.(data := st.data.(sub := next))))
  }

  lemma DecideInv(cfg: Config, st: Rx, es: seq<Event>, left: seq<Chunk>, env: Env)
    requires Separated(st.chunks) && 0 < cfg.crcBlock && Inv(st, es, left)
    ensures Decided(Check(cfg, st, env).0, Check(cfg, st, env).1, es, left)
  {
    hide Separated, Covers, Arrived, CheckDataEof, CalcCrcChunk, HandleFileRetention;
    if st.data.sub == DataEof {
      DecideEof(cfg, st, es, left);
    } else {
      DecideOther(cfg, st, es, left, env);
    }
  }

  lemma DecideOther(cfg: Config, st: Rx, es: seq<Event>, left: seq<Chunk>, env: Env)
    requires Separated(st.chunks) && 0 < cfg.crcBlock && Inv(st, es, left) && st.data.sub != DataEof
    ensures Decided(Check(cfg, st, env).0, Check(cfg, st, env).1, es, left)
  {
    hide CrcLoop, Separated, Covers, Arrived, Gaps.Reported;
  }

  lemma DecideEof(cfg: Config, st: Rx, es: seq<Event>, left: seq<Chunk>)
    requires Separated(st.chunks) && Inv(st, es, left) && st.data.sub == DataEof
    ensures Decided(CheckDataEof(cfg, st).0, CheckDataEof(cfg, st).1, es, left)
  {
    Gaps.ReportsIffMissing(st.chunks, 1, st.fsize, 0);
    hide Separated, Gaps.Reported, Arrived, Covers;
  }

  lemma EnterInv(cfg: Config, st: Rx, next: Sub, es: seq<Event>, left: seq<Chunk>, env: Env)
    requires Decided(st, next, es, left) && next != st.data.sub && st.data.sub.Rank() <= next.Rank()
    ensures Inv(Enter(cfg, st, next, env), es, left)
  {
    hide Arrived, Covers;
  }

  lemma CheckStateInv(cfg: Config, st: Rx, es: seq<Event>, left: seq<Chunk>, env: Env)
    requires Separated(st.chunks) && 0 < cfg.crcBlock && Inv(st, es, left)
    ensures Inv(CheckState(cfg, st, env), es, left)
  {
    var (a, next) := Check(cfg, st, env);
    CheckAdvances(cfg, st, env);
    DecideInv(cfg, st, es, left, env);
    hide Check, Enter, Separated, Arrived, Covers;
    if next != st.data.sub {
      EnterInv(cfg, a, next, es, left, env);
    }
  }

  lemma TickInv(cfg: Config, st: Rx, es: seq<Event>, left: seq<Chunk>, env: Env)
    requires 0 < st.cap && Separated(st.chunks) && 0 < cfg.crcBlock && Inv(st, es, left)
    ensures Inv(Tick(cfg, st, env).rx, es, left)
  {
    var a := InactivityTick(st);
    TimersTimed(st);
    QuietInv(st, a, es, left);
    QuietInv(st, AckTimerTick(a), es, left);
    CheckStateInv(cfg, AckTimerTick(a), es, left, env);
    MaintainQuiet(cfg, TickState(cfg, st, env), env.bufOk);
    hide CheckState, Maintain, Separated, Inv, Timed, Quiet, InactivityTick, AckTimerTick;
    QuietInv(TickState(cfg, st, env), Tick(cfg, st, env).rx, es, left);
  }

  lemma {:induction false} RunInv(cfg: Config, st: Rx, es: seq<Event>, left: seq<Chunk>)
    requires 0 < st.cap && WellFormed(st.cap, st.chunks) && 0 < cfg.crcBlock && Inv(st, [], left)
    requires forall k :: 0 <= k < |es| ==> ValidEvent(es[k])
    ensures Inv(Run(cfg, st, es), es, left)
    decreases |es|
  {
    if es != [] {
      var front, e := es[..|es| - 1], es[|es| - 1];
      RunInv(cfg, st, front, left);
      var last := Run(cfg, st, front);
      assert es == front + [e];
      match e {
        case Arrive(pkt, env) => ArriveInv(cfg, last, front, left, pkt, env);
        case Wakeup(env) => TickInv(cfg, last, front, left, env); LaterInv(Tick(cfg, last, env).rx, front, left, e);
        case _ => LaterInv(last, front, left, e); assert Inv(Step(cfg, last, e), es, left);
      }
    }
  }

  // For every run of a new transaction, with any PDUs in any order, any outcome of the
  // file operations and whatever its list remembers already: a RETAINED report stands
  // for a moved file whose metadata and EOF came in with the same size, every byte of
  // which was received or was in the list it was handed, and whose computed checksum is
  // the one in the EOF.
  lemma RetentionSafety(cfg: Config, unack: bool, list: Option<Handed>, stale: Status, createOk: bool,
                        previous: Option<seq<uint8>>, es: seq<Event>)
    requires Usable(list) && 0 < cfg.crcBlock && forall k :: 0 <= k < |es| ==> ValidEvent(es[k])
    ensures var start := Setup(cfg, unack, list, stale, createOk, previous);
            && 0 < start.cap && WellFormed(start.cap, start.chunks)
            && var st := Run(cfg, start, es);
               st.data.finFs == FS_RETAINED ==> Reported(st) && Whole(st, es, Got(list).chunks)
  {
    hide Run, WellFormed;
    SetupList(cfg, unack, list, stale, createOk, previous);
    SetupInv(cfg, unack, list, stale, createOk, previous);
    RunInv(cfg, Setup(cfg, unack, list, stale, createOk, previous), es, Got(list).chunks);
  }

  lemma SetupInv(cfg: Config, unack: bool, list: Option<Handed>, stale: Status, createOk: bool,
                 previous: Option<seq<uint8>>)
    ensures Inv(Setup(cfg, unack, list, stale, createOk, previous), [], Got(list).chunks)
  {
  }

  // The only step that puts a file under its final name is a wakeup in FILESTORE
  // of a transaction without error; it keeps the temporary file's bytes.
  lemma MoveOnlyWhenSafe(cfg: Config, st: Rx, es: seq<Event>, left: seq<Chunk>, e: Event)
    requires 0 < st.cap && WellFormed(st.cap, st.chunks) && 0 < cfg.crcBlock && ValidEvent(e) && Inv(st, es, left)
    requires Step(cfg, st, e).disk.retained != st.disk.retained
    ensures e.Wakeup? && st.data.sub == FileStore && st.Ok() && st.flags.tempCreated
    ensures Step(cfg, st, e).disk.retained == Some(st.disk.temp)
    ensures Whole(st, es, left) && st.fsize == st.data.eofSize && st.crc.result == st.data.eofCrc
  {
    match e {
      case Arrive(pkt, env) =>
        RecvHandles(cfg, st, pkt, env);
      case Wakeup(env) =>
        var b := AckTimerTick(InactivityTick(st));
        TimersTimed(st);
        MaintainQuiet(cfg, TickState(cfg, st, env), env.bufOk);
        hide Maintain, InactivityTick, AckTimerTick, Separated, Whole;
        CheckStateMoves(cfg, b, env);
        hide CheckState;
      case _ =>
    }
  }

  lemma CheckStateMoves(cfg: Config, st: Rx, env: Env)
    requires Separated(st.chunks) && 0 < cfg.crcBlock
    ensures CheckState(cfg, st, env).disk.retained == st.disk.retained ||
            (&& st.data.sub == FileStore && st.Ok() && st.com.isComplete && st.flags.tempCreated
             && st.crc.result == st.data.eofCrc
             && CheckState(cfg, st, env).disk.retained == Some(st.disk.temp))
  {
    hide CrcLoop, Separated, Gaps.Reported;
  }

  // After RETAINED was decided: further file data meet a closed file and count as a
  // file error, and so does an EOF above the limit.
  lemma LateDataSpoilsReport(cfg: Config, st: Rx, pkt: Packet, env: Env)
    requires 0 < st.cap && Acceptable(pkt.pdu) && Reported(st) && st.Ok() && st.Active()
    requires pkt.unacknowledged != st.reliable && st.flags.eofCount != 0
    ensures Recv(cfg, st, pkt, env).disk.retained == st.disk.retained
    ensures Recv(cfg, st, pkt, env).Ok() <==>
              !pkt.pdu.FileData? &&
              !(pkt.pdu.Eof? && st.reliable && cfg.ackLimit <= st.flags.eofCount)
  {
    RecvHandles(cfg, st, pkt, env);
    hide Add, WriteAt;
  }

  lemma LateEofs(cfg: Config, st: Rx, pkt: Packet, env: Env)
    requires 0 < st.cap && Acceptable(pkt.pdu) && Reported(st) && st.Active() && st.reliable && st.flags.eofCount != 0
    requires !pkt.unacknowledged
    ensures var t := Recv(cfg, st, pkt, env);
            t.flags.eofCount == (if pkt.pdu.Eof? && st.flags.eofCount < cfg.ackLimit then st.flags.eofCount + 1
                                 else st.flags.eofCount)
  {
    hide ProcessFd, RecvMd, RecvEof;
    if pkt.pdu.FileData? && st.Ok() {
      DataKeepsFlags(st, pkt.pdu.offset, pkt.pdu.data, env);
    } else if pkt.pdu.Eof? {
      EofCounts(cfg, st, pkt.pdu.cc, pkt.pdu.crc, pkt.pdu.size);
    }
  }

  lemma EofCounts(cfg: Config, st: Rx, cc: nat, crc: nat, size: nat)
    ensures RecvEof(cfg, st, cc, crc, size).flags == st.flags.(eofCount := CountUp(cfg, st.flags.eofCount).1)
  {
  }

  lemma DataKeepsFlags(st: Rx, off: nat, data: seq<uint8>, env: Env)
    requires 0 < st.cap
    ensures ProcessFd(st, off, data, env).flags == st.flags && ProcessFd(st, off, data, env).com == st.com
  {
    hide Add, WriteAt;
  }

  function Arrivals(cfg: Config, st: Rx, pkts: seq<Packet>, env: Env): Rx
    requires 0 < st.cap && forall k :: 0 <= k < |pkts| ==> Acceptable(pkts[k].pdu)
    decreases |pkts|
  {
    if pkts == [] then st
    else
      assert Recv(cfg, st, pkts[0], env).cap == st.cap by { RecvHandles(cfg, st, pkts[0], env); }
      Arrivals(cfg, Recv(cfg, st, pkts[0], env), pkts[1..], env)
  }

  function Eofs(pkts: seq<Packet>): nat {
    if pkts == [] then 0 else (if pkts[0].pdu.Eof? then 1 else 0) + Eofs(pkts[1..])
  }

  // The report stays clean exactly as long as no file data and no more EOFs than the
  // limit allows arrive; what was retained stays in any case.
  lemma {:induction false} LateArrivals(cfg: Config, st: Rx, pkts: seq<Packet>, env: Env)
    requires 0 < st.cap && Reported(st) && st.Ok() && st.Active() && st.reliable && st.flags.eofCount != 0
    requires forall k :: 0 <= k < |pkts| ==> Acceptable(pkts[k].pdu) && !pkts[k].unacknowledged
    ensures var t := Arrivals(cfg, st, pkts, env);
            && t.disk.retained == st.disk.retained
            && (t.Ok() <==> (forall k :: 0 <= k < |pkts| ==> !pkts[k].pdu.FileData?) &&
                            (Eofs(pkts) == 0 || st.flags.eofCount + Eofs(pkts) <= cfg.ackLimit))
    decreases |pkts|
  {
    if pkts != [] {
      hide Recv, Add;
      var a := Recv(cfg, st, pkts[0], env);
      RecvHandles(cfg, st, pkts[0], env);
      LateDataSpoilsReport(cfg, st, pkts[0], env);
      LateEofs(cfg, st, pkts[0], env);
      if a.Ok() {
        LateArrivals(cfg, a, pkts[1..], env);
        assert forall k :: 0 <= k < |pkts[1..]| ==> pkts[1..][k] == pkts[k + 1];
      } else {
        SpoiltStays(cfg, a, pkts[1..], env);
      }
    }
  }

  lemma {:induction false} SpoiltStays(cfg: Config, st: Rx, pkts: seq<Packet>, env: Env)
    requires 0 < st.cap && !st.Ok() && forall k :: 0 <= k < |pkts| ==> Acceptable(pkts[k].pdu)
    ensures !Arrivals(cfg, st, pkts, env).Ok() && Arrivals(cfg, st, pkts, env).disk.retained == st.disk.retained
    decreases |pkts|
  {
    if pkts != [] {
      hide Recv, Add;
      RecvHandles(cfg, st, pkts[0], env);
      SpoiltStays(cfg, Recv(cfg, st, pkts[0], env), pkts[1..], env);
    }
  }
}
