/** What a receiver makes of its file, and what its FINs and ACKs say about it. */
module RxReports {
  import opened Cfdp
  import opened Crc
  import opened ChunkSpec
  import Gaps
  import opened RxSpec
  import opened RxRuns

  ghost predicate AllValid(es: seq<Event>) { forall k :: 0 <= k < |es| ==> ValidEvent(es[k]) }

  ghost predicate Steady(cfg: Config, st: Rx) { 0 < st.cap && WellFormed(st.cap, st.chunks) && 0 < cfg.crcBlock }

  // The inactivity timeout does not come in the next wakeup.
  predicate Timely(st: Rx) { st.com.inactFired || st.inactTimer != 0 }

  // ---------- when the file is found complete ----------

  // A wakeup in this state finds it complete: a clean transaction in DATA_EOF with no
  // request due, metadata and EOF in, and a list that has every byte.
  ghost predicate Finds(st: Rx) {
    && st.Active() && st.data.sub == DataEof && st.Ok() && Timely(st)
    && !st.flags.sendNak && st.flags.mdRecv && st.flags.eofCount != 0
    && forall x :: 0 <= x < st.fsize ==> Covers(st.chunks, x)
  }

  lemma CompleteIffFinds(st: Rx)
    requires Separated(st.chunks) && st.Active() && st.data.sub == DataEof && st.Ok() && Timely(st)
    ensures CheckComplete(st) <==> Finds(st)
  {
    hide Gaps.Reported, Covers, Separated;
    Gaps.ReportsIffMissing(st.chunks, 1, st.fsize, 0);
  }

  lemma CheckFinds(cfg: Config, st: Rx, env: Env)
    requires Separated(st.chunks) && 0 < cfg.crcBlock
    ensures CheckState(cfg, st, env).com.isComplete
       <==> st.com.isComplete || (st.data.sub == DataEof && st.Ok() && CheckComplete(st))
  {
    hide Check, Enter, CheckComplete, Separated;
    DecisionFinds(cfg, st, env);
    EnterKeepsComplete(cfg, Check(cfg, st, env).0, Check(cfg, st, env).1, env);
  }

  lemma DecisionFinds(cfg: Config, st: Rx, env: Env)
    requires Separated(st.chunks) && 0 < cfg.crcBlock
    ensures Check(cfg, st, env).0.com.isComplete
       <==> st.com.isComplete || (st.data.sub == DataEof && st.Ok() && CheckComplete(st))
  {
    hide CrcLoop, Finalize, CheckComplete, Separated;
  }

  lemma EnterKeepsComplete(cfg: Config, st: Rx, next: Sub, env: Env)
    ensures Enter(cfg, st, next, env).com.isComplete == st.com.isComplete
  {
  }

  // What the timers leave of a transaction.
  lemma TimersTell(st: Rx)
    requires st.Active()
    ensures var b := AckTimerTick(InactivityTick(st));
            && Timed(st, b) && (b.Ok() <==> st.Ok() && Timely(st))
            && (!b.Ok() ==> b.status == if st.Ok() then ST_INACTIVITY_DETECTED else st.status)
            && (b.Ok() ==> b.status == st.status)
            && (b.com.inactFired <==> st.com.inactFired || st.inactTimer == 0)
  {
  }

  lemma TickFinds(cfg: Config, st: Rx, env: Env)
    requires Steady(cfg, st)
    ensures Separated(st.chunks)
    ensures Tick(cfg, st, env).rx.com.isComplete <==> st.com.isComplete || Finds(st)
  {
    hide InactivityTick, AckTimerTick, CheckState, Maintain, Separated, CheckComplete, Finds;
    var b := AckTimerTick(InactivityTick(st));
    ListSound(cfg, st);
    MaintainQuiet(cfg, TickState(cfg, st, env), env.bufOk);
    if st.Active() {
      TimersTell(st);
      CheckFinds(cfg, b, env);
      if b.data.sub == DataEof && b.Ok() {
        CompleteIffFinds(st);
        SameCompleteness(st, b);
      } else {
        NotFound(st);
      }
    } else {
      IdleTick(cfg, st, env);
      TimersTimed(st);
      NotFound(st);
    }
  }

  lemma ListSound(cfg: Config, st: Rx)
    requires Steady(cfg, st)
    ensures 0 < st.cap && Separated(st.chunks) && 0 < cfg.crcBlock
  {
  }

  lemma NotFound(st: Rx)
    requires !st.Active() || st.data.sub != DataEof || !st.Ok() || !Timely(st)
    ensures !Finds(st)
  {
  }

  lemma SameCompleteness(st: Rx, b: Rx)
    requires Separated(st.chunks) && Timed(st, b)
    ensures CheckComplete(b) <==> CheckComplete(st)
  {
    hide Gaps.Reported, Separated;
  }

  lemma StepFinds(cfg: Config, st: Rx, e: Event)
    requires Steady(cfg, st) && ValidEvent(e)
    ensures Step(cfg, st, e).com.isComplete <==> st.com.isComplete || (e.Wakeup? && Finds(st))
  {
    hide Recv, Tick, Separated, Finds;
    match e {
      case Arrive(pkt, env) => RecvHandles(cfg, st, pkt, env);
      case Wakeup(env) => TickFinds(cfg, st, env);
      case _ =>
    }
  }

  // Some wakeup of the run found it complete.
  ghost predicate Found(cfg: Config, st: Rx, es: seq<Event>)
    requires Steady(cfg, st) && AllValid(es)
  {
    exists k :: 0 <= k < |es| && es[k].Wakeup? && Finds(Run(cfg, st, es[..k]))
  }

  lemma FoundNext(cfg: Config, st: Rx, es: seq<Event>)
    requires Steady(cfg, st) && AllValid(es) && es != []
    ensures var front, e := es[..|es| - 1], es[|es| - 1];
            Found(cfg, st, es) <==> Found(cfg, st, front) || (e.Wakeup? && Finds(Run(cfg, st, front)))
  {
    hide Run, Finds, Steady;
    var front := es[..|es| - 1];
    assert forall k :: 0 <= k < |front| ==> front[..k] == es[..k] && front[k] == es[k];
  }

  lemma {:induction false} RunFinds(cfg: Config, st: Rx, es: seq<Event>)
    requires Steady(cfg, st) && AllValid(es)
    ensures Run(cfg, st, es).com.isComplete <==> st.com.isComplete || Found(cfg, st, es)
    decreases |es|
  {
    if es != [] {
      hide Step, Found;
      RunFinds(cfg, st, es[..|es| - 1]);
      StepFinds(cfg, Run(cfg, st, es[..|es| - 1]), es[|es| - 1]);
      FoundNext(cfg, st, es);
    }
  }

  // ---------- the disposal of the file ----------

  predicate Disposed(st: Rx) { 4 <= st.data.sub.Rank() }

  // The disposal moves the file under its final name.
  predicate Moves(st: Rx, env: Env) {
    && st.Active() && st.data.sub == FileStore && st.Ok()
    && st.flags.tempCreated && st.com.isComplete && st.crc.result == st.data.eofCrc && env.moveOk
  }

  // A wakeup in this state does, if it does not find the inactivity timer run down.
  predicate Keeps(st: Rx, env: Env) { Timely(st) && Moves(st, env) }

  // The status a disposal ends with.
  function Verdict(st: Rx, env: Env): Status {
    if !st.Ok() then st.status
    else if !st.flags.tempCreated then ST_FILESTORE_REJECTION
    else if !st.com.isComplete then ST_INVALID_FILE_STRUCTURE
    else if st.crc.result != st.data.eofCrc then ST_FILE_CHECKSUM_FAILURE
    else if !env.moveOk then ST_FILESTORE_REJECTION
    else ST_NO_ERROR
  }

  // The file is kept or gone, the file handle closed, and the codes say which.
  ghost predicate Told(st: Rx) {
    && !st.disk.fdOpen
    && (if !st.flags.tempCreated then st.data.finDc == DC_INVALID && st.data.finFs == FS_INVALID && !st.Ok()
        else
          && st.data.finDc == (if st.com.isComplete then DC_COMPLETE else DC_INCOMPLETE)
          && (st.data.finFs == FS_RETAINED ||
              (!st.Ok() && st.data.finFs == if st.status == ST_FILESTORE_REJECTION then FS_DISCARDED_FILESTORE
                                            else FS_DISCARDED)))
  }

  lemma StoreTells(st: Rx, env: Env)
    requires st.Active() && st.data.sub == FileStore
    ensures var t := HandleFileRetention(st, env);
            && Told(t) && t.status == Verdict(st, env) && t.com.isComplete == st.com.isComplete
            && t.flags == st.flags && t.data.sub == st.data.sub && (t.data.finFs == FS_RETAINED <==> Moves(st, env))
            && t.disk.retained == (if Moves(st, env) then Some(st.disk.temp) else st.disk.retained)
            && (st.flags.tempCreated ==> t.disk.temp == [])
  {
  }

  // ---------- what is kept over every run ----------

  // A FIN is due only after the disposal, and from then on the codes stay.
  ghost predicate Accounted(st: Rx) {
    && (st.flags.sendFin ==> Disposed(st))
    && (if Disposed(st) then Told(st) else st.data.finFs != FS_RETAINED)
  }

  // Neither timers nor sending nor PDUs touch the account.
  lemma SameAccount(st: Rx, t: Rx)
    requires Accounted(st) && t.data.sub == st.data.sub && (t.flags.sendFin ==> st.flags.sendFin)
    requires t.flags.tempCreated == st.flags.tempCreated && t.com.isComplete == st.com.isComplete
    requires t.data.finDc == st.data.finDc && t.data.finFs == st.data.finFs && (!st.Ok() ==> t.status == st.status)
    requires t.disk.fdOpen ==> st.disk.fdOpen
    ensures Accounted(t)
  {
  }

  lemma CheckAccounts(cfg: Config, st: Rx, env: Env)
    requires Separated(st.chunks) && 0 < cfg.crcBlock && Accounted(st) && st.Active()
    ensures var t := CheckState(cfg, st, env);
            Accounted(t) && (t.data.finFs == FS_RETAINED <==> st.data.finFs == FS_RETAINED || Moves(st, env))
  {
    hide Check, Enter, Separated, Told;
    DecisionAccounts(cfg, st, env);
    CheckAdvances(cfg, st, env);
    var (a, next) := Check(cfg, st, env);
    if next != st.data.sub {
      EnterAccounts(cfg, a, next, env);
    }
  }

  // The account between the decision and entering the next sub-state.
  ghost predicate Settled(st: Rx, next: Sub) {
    && (st.flags.sendFin ==> 4 <= next.Rank())
    && (if 4 <= next.Rank() then Told(st) else st.data.finFs != FS_RETAINED)
  }

  lemma DecisionAccounts(cfg: Config, st: Rx, env: Env)
    requires Separated(st.chunks) && 0 < cfg.crcBlock && Accounted(st) && st.Active()
    ensures var (a, next) := Check(cfg, st, env);
            && Settled(a, next) && a.data.sub == st.data.sub
            && (a.data.finFs == FS_RETAINED <==> st.data.finFs == FS_RETAINED || Moves(st, env))
  {
    hide CrcLoop, Finalize, CheckComplete, Separated, HandleFileRetention;
    if st.data.sub == FileStore {
      StoreTells(st, env);
    } else if st.data.sub == Validate {
      ValidateAccounts(cfg, st, env);
    }
  }

  lemma ValidateAccounts(cfg: Config, st: Rx, env: Env)
    requires Accounted(st) && st.data.sub == Validate && 0 < cfg.crcBlock
    ensures var (a, next) := CheckValidate(cfg, st, env);
            Settled(a, next) && a.data.sub == st.data.sub && a.data.finFs == st.data.finFs
  {
    hide CrcLoop, Finalize;
  }

  lemma EnterAccounts(cfg: Config, st: Rx, next: Sub, env: Env)
    requires Settled(st, next)
    ensures var t := Enter(cfg, st, next, env);
            Accounted(t) && t.data.finFs == st.data.finFs
  {
  }

  lemma TickAccounts(cfg: Config, st: Rx, env: Env)
    requires Steady(cfg, st) && Accounted(st)
    ensures Separated(st.chunks)
    ensures var r := Tick(cfg, st, env);
            && Accounted(r.rx)
            && (r.rx.data.finFs == FS_RETAINED <==> st.data.finFs == FS_RETAINED || Keeps(st, env))
            && forall p :: p in r.sent && p.pdu.Fin? ==> TrueFin(r.rx, p)
  {
    hide TickState, Maintain, Separated, Accounted, TrueFin, Keeps;
    ListSound(cfg, st);
    StateAccounts(cfg, st, env);
    SendsWhenDue(cfg, TickState(cfg, st, env), env.bufOk);
  }

  lemma StateAccounts(cfg: Config, st: Rx, env: Env)
    requires Separated(st.chunks) && 0 < cfg.crcBlock && Accounted(st)
    ensures var c := TickState(cfg, st, env);
            Accounted(c) && (c.data.finFs == FS_RETAINED <==> st.data.finFs == FS_RETAINED || Keeps(st, env))
  {
    hide InactivityTick, AckTimerTick, CheckState, Separated, Told;
    var b := AckTimerTick(InactivityTick(st));
    TimersTimed(st);
    if st.Active() {
      SameAccount(st, b);
      CheckAccounts(cfg, b, env);
      SameKeeps(st, b, env);
    } else {
      SameAccount(st, InactivityTick(st));
    }
  }

  lemma SameKeeps(st: Rx, b: Rx, env: Env)
    requires st.Active() && b == AckTimerTick(InactivityTick(st))
    ensures Moves(b, env) <==> Keeps(st, env)
  {
  }

  // A FIN names the status and the codes of the transaction, and its class while active.
  ghost predicate TrueFin(st: Rx, p: Packet) {
    && Disposed(st)
    && p == Packet(st.phase != R2, WireFin(ToConditionCode(st.status), st.data.finDc, st.data.finFs))
  }

  lemma SendsWhenDue(cfg: Config, st: Rx, bufOk: bool)
    requires 0 < st.cap && Separated(st.chunks) && Accounted(st)
    ensures var (t, sent) := Maintain(cfg, st, bufOk);
            && Accounted(t) && t.data.finFs == st.data.finFs
            && forall p :: p in sent && p.pdu.Fin? ==> TrueFin(t, p)
  {
    hide Separated, Maintain, Told, TrueFin;
    MaintainQuiet(cfg, st, bufOk);
    FinsTrue(cfg, st, bufOk);
    SameAccount(st, Maintain(cfg, st, bufOk).0);
  }

  lemma FinsTrue(cfg: Config, st: Rx, bufOk: bool)
    requires 0 < st.cap && Separated(st.chunks) && (st.flags.sendFin ==> Disposed(st))
    ensures var (t, sent) := Maintain(cfg, st, bufOk);
            (t.flags.sendFin ==> st.flags.sendFin) && forall p :: p in sent && p.pdu.Fin? ==> TrueFin(t, p)
  {
    hide Separated, NakGaps, NakSegs, ToConditionCode;
  }

  lemma StepAccounts(cfg: Config, st: Rx, e: Event)
    requires Steady(cfg, st) && ValidEvent(e) && Accounted(st)
    ensures var t := Step(cfg, st, e);
            && Accounted(t)
            && (t.data.finFs == FS_RETAINED <==> st.data.finFs == FS_RETAINED || (e.Wakeup? && Keeps(st, e.env)))
  {
    hide Recv, Tick, Separated;
    match e {
      case Arrive(pkt, env) =>
        RecvHandles(cfg, st, pkt, env);
        SameAccount(st, Recv(cfg, st, pkt, env));
      case Wakeup(env) => TickAccounts(cfg, st, env);
      case _ => SameAccount(st, Step(cfg, st, e));
    }
  }

  // Some wakeup of the run moved the file under its final name.
  ghost predicate Kept(cfg: Config, st: Rx, es: seq<Event>)
    requires Steady(cfg, st) && AllValid(es)
  {
    exists k :: 0 <= k < |es| && es[k].Wakeup? && Keeps(Run(cfg, st, es[..k]), es[k].env)
  }

  lemma KeptNext(cfg: Config, st: Rx, es: seq<Event>)
    requires Steady(cfg, st) && AllValid(es) && es != []
    ensures var front, e := es[..|es| - 1], es[|es| - 1];
            Kept(cfg, st, es) <==> Kept(cfg, st, front) || (e.Wakeup? && Keeps(Run(cfg, st, front), e.env))
  {
    hide Run, Keeps, Steady;
    var front := es[..|es| - 1];
    assert forall k :: 0 <= k < |front| ==> front[..k] == es[..k] && front[k] == es[k];
  }

  lemma {:induction false} RunAccounts(cfg: Config, st: Rx, es: seq<Event>)
    requires Steady(cfg, st) && AllValid(es) && Accounted(st) && st.data.finFs != FS_RETAINED
    ensures var t := Run(cfg, st, es);
            Accounted(t) && (t.data.finFs == FS_RETAINED <==> Kept(cfg, st, es))
    decreases |es|
  {
    if es != [] {
      hide Step, Kept, Accounted;
      RunAccounts(cfg, st, es[..|es| - 1]);
      StepAccounts(cfg, Run(cfg, st, es[..|es| - 1]), es[|es| - 1]);
      KeptNext(cfg, st, es);
    }
  }

  // ---------- what each FIN says ----------

  // A new transaction: active exactly if there is a chunk list and no error is left in
  // its history entry, and in error from the start without a temporary file.
  lemma SetupAccounts(cfg: Config, unack: bool, list: Option<Handed>, stale: Status, createOk: bool,
                      previous: Option<seq<uint8>>)
    requires Usable(list) && 0 < cfg.crcBlock
    ensures var st := Setup(cfg, unack, list, stale, createOk, previous);
            && Steady(cfg, st) && Accounted(st) && st.data.finFs != FS_RETAINED && !st.com.isComplete
            && (st.flags.tempCreated <==> createOk && list.Some? && !IsError(stale))
            && !st.flags.finAckRecv && st.flags.eofCount == 0 && !st.flags.mdRecv && !st.com.closeReq
            && (st.Active() <==> list.Some? && !IsError(stale))
            && st.status == (if IsError(stale) then stale else if list.None? then ST_NO_RESOURCE
                             else if !createOk then ST_FILESTORE_REJECTION else stale)
            && (st.Active() ==> st.phase == (if unack then R1 else R2) && st.reliable == !unack
                                && st.disk.fdOpen == createOk && st.inactTimer == cfg.inactTicks)
  {
    SetupList(cfg, unack, list, stale, createOk, previous);
  }

  lemma {:induction false} RunTemp(cfg: Config, st: Rx, es: seq<Event>)
    requires Steady(cfg, st) && AllValid(es)
    ensures Run(cfg, st, es).flags.tempCreated == st.flags.tempCreated
    decreases |es|
  {
    if es != [] {
      hide Recv, Tick, Separated;
      RunTemp(cfg, st, es[..|es| - 1]);
      var last, e := Run(cfg, st, es[..|es| - 1]), es[|es| - 1];
      match e {
        case Arrive(pkt, env) => RecvHandles(cfg, last, pkt, env);
        case Wakeup(env) => TickKeepsNotes(cfg, last, env);
        case _ =>
      }
    }
  }

  // A run and one wakeup more.
  lemma WakeupAfter(cfg: Config, st: Rx, es: seq<Event>, env: Env)
    requires Steady(cfg, st) && AllValid(es)
    ensures AllValid(es + [Wakeup(env)]) && Steady(cfg, Run(cfg, st, es))
    ensures Run(cfg, st, es + [Wakeup(env)]) == Tick(cfg, Run(cfg, st, es), env).rx
  {
    hide Tick, Separated;
    assert (es + [Wakeup(env)])[..|es|] == es;
  }

  // Each FIN of every run of a new transaction, whatever arrives and however the calls
  // end. It names the status. With a temporary file its delivery code is COMPLETE exactly
  // if some wakeup of the run found the file complete, which takes metadata, EOF and
  // every byte of the file received or in the list handed out, and else INCOMPLETE; its
  // file status is RETAINED exactly if some wakeup moved the file, and else one of the
  // two kinds of DISCARDED. Without one the codes 2 and 4 come out as 0 and 0, COMPLETE
  // and DISCARDED, beside an error.
  lemma FinReports(cfg: Config, unack: bool, list: Option<Handed>, stale: Status, createOk: bool,
                   previous: Option<seq<uint8>>, es: seq<Event>, env: Env)
    requires Usable(list) && 0 < cfg.crcBlock && AllValid(es)
    ensures var start, now := Setup(cfg, unack, list, stale, createOk, previous), es + [Wakeup(env)];
            && Steady(cfg, start) && AllValid(now)
            && var r := Tick(cfg, Run(cfg, start, es), env);
               forall p :: p in r.sent && p.pdu.Fin? ==>
                 && p.pdu.cc == ToConditionCode(r.rx.status)
                 && if createOk && list.Some? && !IsError(stale) then
                      && p.pdu.dc == (if Found(cfg, start, now) then DC_COMPLETE else DC_INCOMPLETE)
                      && (Found(cfg, start, now) ==> Whole(r.rx, now, Got(list).chunks))
                      && (p.pdu.fs == FS_RETAINED <==> Kept(cfg, start, now))
                      && (p.pdu.fs != FS_RETAINED ==>
                            IsError(p.pdu.cc) && p.pdu.fs == if r.rx.status == ST_FILESTORE_REJECTION
                                                             then FS_DISCARDED_FILESTORE else FS_DISCARDED)
                    else p.pdu.dc == DC_COMPLETE && p.pdu.fs == FS_DISCARDED && IsError(p.pdu.cc)
  {
    hide Tick, Run, Setup, Found, Kept, Whole, Steady, Disposed, ToConditionCode;
    var start, now := Setup(cfg, unack, list, stale, createOk, previous), es + [Wakeup(env)];
    SetupAccounts(cfg, unack, list, stale, createOk, previous);
    WakeupAfter(cfg, start, es, env);
    RunAccounts(cfg, start, es);
    TickAccounts(cfg, Run(cfg, start, es), env);
    RunAccounts(cfg, start, now);
    RunFinds(cfg, start, now);
    RunTemp(cfg, start, now);
    FoundIsWhole(cfg, unack, list, stale, createOk, previous, now);
    ConditionCodeFaithful(Tick(cfg, Run(cfg, start, es), env).rx.status);
  }

  lemma FoundIsWhole(cfg: Config, unack: bool, list: Option<Handed>, stale: Status, createOk: bool,
                     previous: Option<seq<uint8>>, es: seq<Event>)
    requires Usable(list) && 0 < cfg.crcBlock && AllValid(es)
    ensures var start := Setup(cfg, unack, list, stale, createOk, previous);
            && Steady(cfg, start)
            && var st := Run(cfg, start, es);
               st.com.isComplete ==> Whole(st, es, Got(list).chunks)
  {
    hide Run, Setup, Whole;
    SetupAccounts(cfg, unack, list, stale, createOk, previous);
    SetupInv(cfg, unack, list, stale, createOk, previous);
    RunInv(cfg, Setup(cfg, unack, list, stale, createOk, previous), es, Got(list).chunks);
  }

  // An error before that wakeup rules it out, whatever has arrived or still arrives.
  lemma {:induction false} StoppedBefore(cfg: Config, st: Rx, es: seq<Event>)
    requires Steady(cfg, st) && AllValid(es) && !st.Ok() && !st.com.isComplete
    ensures !Run(cfg, st, es).Ok() && !Run(cfg, st, es).com.isComplete
    decreases |es|
  {
    if es != [] {
      hide Step;
      StoppedBefore(cfg, st, es[..|es| - 1]);
      var last := Run(cfg, st, es[..|es| - 1]);
      StepFinds(cfg, last, es[|es| - 1]);
      StepFrozen(cfg, last, es[|es| - 1]);
    }
  }

  // So having received everything is not enough: a class 1 transaction with closure
  // that is cancelled in between reports an INCOMPLETE file nothing is missing of.
  lemma CancelledComplete(cfg: Config, env: Env)
    requires 0 < cfg.crcBlock && 0 < cfg.nameMax && 0 < cfg.ackLimit && env.bufOk
    ensures var start := Setup(cfg, true, Some(Handed(1, [])), ST_NO_ERROR, true, None);
            var es := [Arrive(Packet(true, Metadata(true, 0, 0, 0)), env), Arrive(Packet(true, Eof(0, 0, 0)), env),
                       CancelCmd, Wakeup(env), Wakeup(env)];
            && Steady(cfg, start) && AllValid(es)
            && Tick(cfg, Run(cfg, start, es), env).sent
               == [Packet(true, Fin(ST_CANCEL_REQUEST_RECEIVED, DC_INCOMPLETE, FS_DISCARDED))]
            && Whole(Run(cfg, start, es), es, [])
  {
    hide Setup, Recv, Tick, Run, Whole, WellFormed, Separated;
    var start := Setup(cfg, true, Some(Handed(1, [])), ST_NO_ERROR, true, None);
    var md, eof := Arrive(Packet(true, Metadata(true, 0, 0, 0)), env), Arrive(Packet(true, Eof(0, 0, 0)), env);
    SetupAccounts(cfg, true, Some(Handed(1, [])), ST_NO_ERROR, true, None);
    NoEvents(cfg, start);
    OneMore(cfg, start, [], md);
    OneMore(cfg, start, [md], eof);
    OneMore(cfg, start, [md, eof], CancelCmd);
    OneMore(cfg, start, [md, eof, CancelCmd], Wakeup(env));
    OneMore(cfg, start, [md, eof, CancelCmd, Wakeup(env)], Wakeup(env));
    AllIn(cfg, start, env);
    var d := Cancel(Recv(cfg, Recv(cfg, start, md.pkt, env), eof.pkt, env));
    Called(cfg, d, env, DataEof);
    Called(cfg, Tick(cfg, d, env).rx, env, FileStore);
    LastCall(cfg, Tick(cfg, Tick(cfg, d, env).rx, env).rx, env);
    EmptyWhole(Tick(cfg, Tick(cfg, d, env).rx, env).rx, [md, eof, CancelCmd, Wakeup(env), Wakeup(env)]);
    assert [] + [md] == [md] && [md] + [eof] == [md, eof] && [md, eof] + [CancelCmd] == [md, eof, CancelCmd];
    assert [md, eof, CancelCmd] + [Wakeup(env)] == [md, eof, CancelCmd, Wakeup(env)];
    assert [md, eof, CancelCmd, Wakeup(env)] + [Wakeup(env)] == [md, eof, CancelCmd, Wakeup(env), Wakeup(env)];
  }

  lemma NoEvents(cfg: Config, st: Rx)
    requires Steady(cfg, st)
    ensures Run(cfg, st, []) == st
  {
  }

  lemma OneMore(cfg: Config, st: Rx, es: seq<Event>, e: Event)
    requires Steady(cfg, st) && AllValid(es) && ValidEvent(e)
    ensures AllValid(es + [e]) && Steady(cfg, Run(cfg, st, es))
    ensures Run(cfg, st, es + [e]) == Step(cfg, Run(cfg, st, es), e)
  {
    hide Step, Separated;
    assert (es + [e])[..|es|] == es;
  }

  // A cancelled class 1 transaction with metadata and EOF of an empty file.
  ghost predicate Stopped(st: Rx) {
    && st.phase == R1 && !st.reliable && st.status == ST_CANCEL_REQUEST_RECEIVED && !st.com.isComplete
    && st.com.closeReq && st.flags.tempCreated && st.flags.mdRecv && st.flags.eofCount == 1 && st.fsize == 0
    && !st.flags.sendNak && !st.flags.sendFin && st.cap == 1 && st.chunks == []
  }

  lemma AllIn(cfg: Config, start: Rx, env: Env)
    requires 0 < cfg.crcBlock && 0 < cfg.nameMax && 0 < cfg.ackLimit
    requires start == Setup(cfg, true, Some(Handed(1, [])), ST_NO_ERROR, true, None)
    ensures var t := Cancel(Recv(cfg, Recv(cfg, start, Packet(true, Metadata(true, 0, 0, 0)), env),
                                 Packet(true, Eof(0, 0, 0)), env));
            Stopped(t) && t.data.sub == DataNormal && Separated(t.chunks) && 0 < start.cap
  {
    var a := Recv(cfg, start, Packet(true, Metadata(true, 0, 0, 0)), env);
    assert a == ArmInact(cfg, RecvMd(cfg, start, true, 0, 0, 0));
    assert Recv(cfg, a, Packet(true, Eof(0, 0, 0)), env) == ArmInact(cfg, RecvEof(cfg, a, 0, 0, 0));
  }

  lemma StoppedTimers(st: Rx)
    requires Stopped(st)
    ensures var b := AckTimerTick(InactivityTick(st));
            Stopped(b) && b.data.sub == st.data.sub
  {
  }

  lemma StoppedCheck(cfg: Config, st: Rx, env: Env)
    requires 0 < cfg.crcBlock && Stopped(st) && Separated(st.chunks)
    ensures var t := CheckState(cfg, st, env);
            && (st.data.sub == DataNormal ==> Stopped(t) && t.data.sub == DataEof)
            && (st.data.sub == DataEof ==> Stopped(t) && t.data.sub == FileStore)
            && (st.data.sub == FileStore ==>
                  t.flags.sendFin && !t.flags.sendNak && t.phase == R1 && !t.reliable
                  && t.status == ST_CANCEL_REQUEST_RECEIVED && t.data.finDc == DC_INCOMPLETE
                  && t.data.finFs == FS_DISCARDED)
  {
    hide Separated;
  }

  lemma StoppedSend(cfg: Config, st: Rx, bufOk: bool)
    requires Stopped(st) && Separated(st.chunks)
    ensures Maintain(cfg, st, bufOk).0 == st
  {
    hide Separated;
  }

  lemma Called(cfg: Config, st: Rx, env: Env, next: Sub)
    requires 0 < cfg.crcBlock && Stopped(st) && Separated(st.chunks)
    requires (st.data.sub == DataNormal && next == DataEof) || (st.data.sub == DataEof && next == FileStore)
    ensures var t := Tick(cfg, st, env).rx;
            Stopped(t) && t.data.sub == next && Separated(t.chunks)
  {
    hide InactivityTick, AckTimerTick, CheckState, Maintain, Separated;
    TimersTimed(st);
    StoppedTimers(st);
    StoppedCheck(cfg, AckTimerTick(InactivityTick(st)), env);
    StoppedSend(cfg, TickState(cfg, st, env), env.bufOk);
  }

  lemma LastCall(cfg: Config, st: Rx, env: Env)
    requires 0 < cfg.crcBlock && Stopped(st) && Separated(st.chunks) && st.data.sub == FileStore && env.bufOk
    ensures Tick(cfg, st, env).sent
         == [Packet(true, Fin(ST_CANCEL_REQUEST_RECEIVED, DC_INCOMPLETE, FS_DISCARDED))]
  {
    hide InactivityTick, AckTimerTick, CheckState, Maintain, Separated;
    TimersTimed(st);
    StoppedTimers(st);
    StoppedCheck(cfg, AckTimerTick(InactivityTick(st)), env);
    StoppedReport(cfg, TickState(cfg, st, env));
  }

  lemma StoppedReport(cfg: Config, st: Rx)
    requires 0 < st.cap && Separated(st.chunks) && st.flags.sendFin && !st.flags.sendNak && st.phase == R1
    requires !st.reliable
    requires st.status == ST_CANCEL_REQUEST_RECEIVED && st.data.finDc == DC_INCOMPLETE && st.data.finFs == FS_DISCARDED
    ensures Maintain(cfg, st, true).1
         == [Packet(true, Fin(ST_CANCEL_REQUEST_RECEIVED, DC_INCOMPLETE, FS_DISCARDED))]
  {
    hide Separated;
  }

  lemma EmptyWhole(st: Rx, es: seq<Event>)
    requires Stopped(st)
    ensures Whole(st, es, [])
  {
  }

  // ---------- the fate of the file ----------

  // What the wakeup does that finds the transaction in FILESTORE: status and codes, the
  // file under its final name, and whether a FIN is due: in class 2, and in class 1
  // exactly if the metadata asked for closure.
  lemma FileFate(cfg: Config, st: Rx, env: Env)
    requires Steady(cfg, st) && st.Active() && st.data.sub == FileStore && !st.flags.sendFin
    ensures Separated(st.chunks)
    ensures var r := Tick(cfg, st, env);
            var t := r.rx;
            && Told(t) && (t.data.finFs == FS_RETAINED <==> Keeps(st, env))
            && t.status == (if st.Ok() && !Timely(st) then ST_INACTIVITY_DETECTED else Verdict(st, env))
            && t.disk.retained == (if Keeps(st, env) then Some(st.disk.temp) else st.disk.retained)
            && (if st.reliable || st.com.closeReq then t.data.sub == FinAck && t.phase == st.phase
                else t.data.sub == Complete && t.phase == Hold)
            && ((t.flags.sendFin || exists p :: p in r.sent && p.pdu.Fin?) <==> st.reliable || st.com.closeReq)
  {
    hide InactivityTick, AckTimerTick, CheckState, Maintain, Separated, Told;
    var b := AckTimerTick(InactivityTick(st));
    ListSound(cfg, st);
    TimersTell(st);
    StoreCheck(cfg, b, env);
    SameKeeps(st, b, env);
    var c := TickState(cfg, st, env);
    MaintainQuiet(cfg, c, env.bufOk);
    QuietTells(c, Maintain(cfg, c, env.bufOk).0);
    FinLeaves(cfg, c, env.bufOk);
  }

  lemma StoreCheck(cfg: Config, st: Rx, env: Env)
    requires Separated(st.chunks) && 0 < cfg.crcBlock && st.Active() && st.data.sub == FileStore && !st.flags.sendFin
    ensures var t := CheckState(cfg, st, env);
            && Told(t) && (t.data.finFs == FS_RETAINED <==> Moves(st, env)) && t.status == Verdict(st, env)
            && t.disk.retained == (if Moves(st, env) then Some(st.disk.temp) else st.disk.retained)
            && (if st.reliable || st.com.closeReq then t.data.sub == FinAck && t.phase == st.phase
                else t.data.sub == Complete && t.phase == Hold)
            && (t.flags.sendFin <==> st.reliable || st.com.closeReq)
  {
    hide HandleFileRetention, Separated;
    StoreTells(st, env);
    StoreKeepsRest(st, env);
  }

  lemma StoreKeepsRest(st: Rx, env: Env)
    ensures var t := HandleFileRetention(st, env);
            t.phase == st.phase && t.reliable == st.reliable && t.com.closeReq == st.com.closeReq
  {
  }

  lemma QuietTells(st: Rx, t: Rx)
    requires Quiet(st, t) && Told(st)
    ensures Told(t)
  {
  }

  // A FIN that is due stays due until it goes out.
  lemma FinLeaves(cfg: Config, st: Rx, bufOk: bool)
    requires 0 < st.cap && Separated(st.chunks)
    ensures var (t, sent) := Maintain(cfg, st, bufOk);
            st.flags.sendFin <==> t.flags.sendFin || exists p :: p in sent && p.pdu.Fin?
  {
    hide Separated, NakGaps, NakSegs, ToConditionCode;
    var (t, sent) := Maintain(cfg, st, bufOk);
    if st.flags.sendFin && !t.flags.sendFin {
      assert sent[0].pdu.Fin?;
    }
  }
}
