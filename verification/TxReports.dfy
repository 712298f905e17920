/** What a sender makes of a FIN, what becomes of its source, and what its acknowledgements say. */
module TxReports {
  import opened Cfdp
  import opened Crc
  import opened ChunkSpec
  import opened Link
  import opened TxSpec
  import opened TxRuns

  // ---------- the first FIN ----------

  // A FIN of the transaction's mode that it takes: always in class 2 and in holdover,
  // in class 1 until the source is disposed of.
  predicate TakesFin(st: Tx, pkt: Packet) {
    && pkt.pdu.Fin? && pkt.unacknowledged != st.reliable
    && (!st.Active() || st.reliable || st.data.sub == DataNormal || st.data.sub == DataEof)
  }

  // It comes before the EOF.
  predicate Early(st: Tx) { st.Active() && st.data.sub == DataNormal }

  // What the first FIN leaves behind: its fields, and its condition code as the status
  // of a transaction that had no error.
  lemma FirstFinNoted(cfg: Config, st: Tx, src: seq<uint8>, pkt: Packet)
    requires 0 < st.cap && TakesFin(st, pkt) && st.flags.finCount == 0
    ensures var t := Step(cfg, st, src, Arrive(pkt)).0;
            && t.data.peerCc == pkt.pdu.cc && t.data.finDc == pkt.pdu.dc && t.data.finFs == pkt.pdu.fs
            && t.source == st.source && t.reliable == st.reliable
            && (!st.Ok() ==> t.status == st.status)
            && (st.Ok() && Early(st) ==> t.status == ST_EARLY_FIN)
            && (st.Ok() && !Early(st) && IsError(pkt.pdu.cc) ==> t.status == pkt.pdu.cc)
            && (st.Ok() && !Early(st) && !IsError(pkt.pdu.cc) && 0 < cfg.ackLimit ==> t.status == pkt.pdu.cc)
  {
    hide RecvFin, EarlyFin;
    var cc, dc, fs := pkt.pdu.cc, pkt.pdu.dc, pkt.pdu.fs;
    FinEffect(cfg, st, cc, dc, fs);
    FinEffect(cfg, st.SetStatus(ST_EARLY_FIN), cc, dc, fs);
    EarlyIsFin(cfg, st, cc, dc, fs);
    assert Recv(cfg, st, pkt)
        == ArmInact(cfg, if Early(st) then EarlyFin(cfg, st, cc, dc, fs) else RecvFin(cfg, st, cc, dc, fs));
  }

  lemma EarlyIsFin(cfg: Config, st: Tx, cc: nat, dc: nat, fs: nat)
    ensures EarlyFin(cfg, st, cc, dc, fs) == RecvFin(cfg, st.SetStatus(ST_EARLY_FIN), cc, dc, fs)
  {
  }

  lemma FinEffect(cfg: Config, st: Tx, cc: nat, dc: nat, fs: nat)
    requires st.flags.finCount == 0
    ensures var t := RecvFin(cfg, st, cc, dc, fs);
            && t.data.peerCc == cc && t.data.finDc == dc && t.data.finFs == fs
            && t.source == st.source && t.reliable == st.reliable && t.cap == st.cap
            && t.status == if !st.Ok() then st.status
                           else if IsError(cc) || 0 < cfg.ackLimit then cc else ST_POS_ACK_LIMIT_REACHED
  {
  }

  // Over every run of a sender, in either class, whatever came before and whatever
  // comes after: once the first FIN it takes carries an error, the status is an error
  // for the rest of the run, that very code if there was none before and the FIN was
  // not early; and a source that was still there is never given up.
  lemma FirstFinDecides(cfg: Config, class2: bool, keep: bool, cmdTx: bool, list: Handed, stale: Status,
                        srcLen: nat, dstLen: nat, src: seq<uint8>, before: seq<Event>, pkt: Packet, after: seq<Event>)
    requires list.Proper()
    ensures var start := Start(cfg, class2, keep, cmdTx, |src|, list, stale, srcLen, dstLen);
            && 0 < start.cap
            && var st := Run(cfg, start, src, before).0;
               && 0 < st.cap
               && (TakesFin(st, pkt) && st.flags.finCount == 0 && IsError(pkt.pdu.cc) ==>
                     var a := Step(cfg, st, src, Arrive(pkt)).0;
                     && 0 < a.cap
                     && var t := Run(cfg, a, src, after).0;
                        && !t.Ok() && (t.source.Gone() ==> !class2 && st.source.Gone())
                        && (st.Ok() ==> t.status == if Early(st) then ST_EARLY_FIN else pkt.pdu.cc))
  {
    hide Step, Run, Start;
    var start := Start(cfg, class2, keep, cmdTx, |src|, list, stale, srcLen, dstLen);
    StartsRight(cfg, class2, keep, cmdTx, list, stale, srcLen, dstLen, |src|);
    RunKeepsRoom(cfg, start, src, before);
    RunCompletes(cfg, start, src, before);
    var st := Run(cfg, start, src, before).0;
    if TakesFin(st, pkt) && st.flags.finCount == 0 && IsError(pkt.pdu.cc) {
      var a := Step(cfg, st, src, Arrive(pkt)).0;
      FirstFinNoted(cfg, st, src, pkt);
      StepKeepsRoom(cfg, st, src, Arrive(pkt));
      ErrorFreeze(cfg, a, src, after);
      if class2 {
        StillThere(st);
      }
    }
  }

  lemma StartsRight(cfg: Config, class2: bool, keep: bool, cmdTx: bool, list: Handed, stale: Status,
                    srcLen: nat, dstLen: nat, size: nat)
    ensures var st := Start(cfg, class2, keep, cmdTx, size, list, stale, srcLen, dstLen);
            && st.cap == list.cap && st.reliable == class2 && Completing(st) && Placing(st)
            && !st.com.closeReq && st.data.peerCc == 0 && st.flags.finCount == st.flags.finAckCount == 0
  {
  }

  // Without a FIN a class 2 sender has given up nothing.
  lemma StillThere(st: Tx)
    requires Completing(st) && st.flags.finCount == 0 && st.reliable
    ensures !st.source.Gone()
  {
  }

  lemma {:induction false} RunKeepsRoom(cfg: Config, st: Tx, src: seq<uint8>, es: seq<Event>)
    requires 0 < st.cap
    ensures var t := Run(cfg, st, src, es).0;
            t.cap == st.cap && t.reliable == st.reliable && t.keep == st.keep && t.fsize == st.fsize
    decreases |es|
  {
    if es != [] {
      hide Step;
      StepKeepsRoom(cfg, st, src, es[0]);
      RunKeepsRoom(cfg, Step(cfg, st, src, es[0]).0, src, es[1..]);
    }
  }

  // ---------- what is noted of what arrives ----------

  // An EOF-ACK and a NAK that the transaction takes.
  predicate TakesEofAck(st: Tx, pkt: Packet) {
    && pkt.pdu.Ack? && pkt.pdu.directive == DIR_EOF && !pkt.unacknowledged && st.reliable && st.Active()
    && st.data.sub != DataNormal
  }

  predicate TakesNak(st: Tx, pkt: Packet) {
    pkt.pdu.Nak? && !pkt.unacknowledged && st.reliable && st.Active()
  }

  predicate AsksMetadata(segs: seq<Seg>) { exists i :: 0 <= i < |segs| && segs[i] == Seg(0, 0) }

  predicate AsksData(fsize: nat, segs: seq<Seg>) { exists i :: 0 <= i < |segs| && DataRequest(fsize, segs[i]) }

  // FINs are counted up to the limit; EOF-ACK, metadata and data requests raise their
  // flags; nothing else that arrives changes any of these.
  ghost predicate Notes(cfg: Config, st: Tx, pkt: Packet, t: Tx) {
    && t.flags.finCount == (if TakesFin(st, pkt) && st.flags.finCount < cfg.ackLimit then st.flags.finCount + 1
                            else st.flags.finCount)
    && (t.flags.eofAckRecv <==> st.flags.eofAckRecv || TakesEofAck(st, pkt))
    && (t.flags.sendMd <==> st.flags.sendMd || (TakesNak(st, pkt) && AsksMetadata(pkt.pdu.segs)))
    && (t.flags.fdNakPending <==> st.flags.fdNakPending || (TakesNak(st, pkt) && AsksData(st.fsize, pkt.pdu.segs)))
    && t.flags.sendEof == st.flags.sendEof && t.flags.finAckCount == st.flags.finAckCount
  }

  lemma ArriveNotes(cfg: Config, st: Tx, pkt: Packet)
    requires 0 < st.cap
    ensures Notes(cfg, st, pkt, Recv(cfg, st, pkt))
  {
    hide RecvFin, EarlyFin, RecvNak, AsksMetadata, AsksData, Dispatch, TakesFin, TakesEofAck, Early;
    DispatchIs(cfg, st, pkt);
    TakesOne(st, pkt);
    if TakesFin(st, pkt) {
      FinCounts(cfg, st, pkt.pdu.cc, pkt.pdu.dc, pkt.pdu.fs);
      FinCounts(cfg, st.SetStatus(ST_EARLY_FIN), pkt.pdu.cc, pkt.pdu.dc, pkt.pdu.fs);
      EarlyIsFin(cfg, st, pkt.pdu.cc, pkt.pdu.dc, pkt.pdu.fs);
    } else if TakesNak(st, pkt) {
      NakAsks(st, pkt.pdu.segs);
    }
  }

  lemma TakesOne(st: Tx, pkt: Packet)
    ensures TakesFin(st, pkt) ==> pkt.pdu.Fin? && !TakesEofAck(st, pkt) && !TakesNak(st, pkt)
    ensures TakesNak(st, pkt) ==> !TakesEofAck(st, pkt)
  {
  }

  lemma DispatchIs(cfg: Config, st: Tx, pkt: Packet)
    requires 0 < st.cap
    ensures Dispatch(cfg, st, pkt)
         == if TakesFin(st, pkt) then
              if Early(st) then EarlyFin(cfg, st, pkt.pdu.cc, pkt.pdu.dc, pkt.pdu.fs)
              else RecvFin(cfg, st, pkt.pdu.cc, pkt.pdu.dc, pkt.pdu.fs)
            else if TakesEofAck(st, pkt) then st.(flags := st.flags.(eofAckRecv := true))
            else if TakesNak(st, pkt) then RecvNak(st, pkt.pdu.segs)
            else st
  {
    hide RecvFin, EarlyFin, RecvNak;
  }

  lemma FinCounts(cfg: Config, st: Tx, cc: nat, dc: nat, fs: nat)
    ensures RecvFin(cfg, st, cc, dc, fs).flags == st.flags.(finCount := CountUp(cfg, st.flags.finCount).1)
  {
  }

  lemma {:induction false} NakAsks(st: Tx, segs: seq<Seg>)
    requires 0 < st.cap
    ensures var f := RecvNak(st, segs).flags;
            && f == st.flags.(sendMd := f.sendMd, fdNakPending := f.fdNakPending)
            && (f.sendMd <==> st.flags.sendMd || AsksMetadata(segs))
            && (f.fdNakPending <==> st.flags.fdNakPending || AsksData(st.fsize, segs))
    decreases |segs|
  {
    if segs != [] {
      SegAsks(st, segs[0]);
      hide RecvSeg, DataRequest;
      NakAsks(RecvSeg(st, segs[0]), segs[1..]);
      assert forall i :: 0 <= i < |segs[1..]| ==> segs[1..][i] == segs[i + 1];
      assert forall i :: 0 < i < |segs| ==> segs[i] == segs[1..][i - 1];
    }
  }

  lemma SegAsks(st: Tx, sr: Seg)
    requires 0 < st.cap
    ensures var t := RecvSeg(st, sr);
            && t.cap == st.cap && t.fsize == st.fsize
            && t.flags == st.flags.(sendMd := st.flags.sendMd || sr == Seg(0, 0),
                 fdNakPending := st.flags.fdNakPending || DataRequest(st.fsize, sr))
  {
    hide Add;
  }

  // ---------- what becomes of the source ----------

  // It is where it was until it is disposed of.
  ghost predicate Placing(st: Tx) { st.data.sub != Complete ==> st.source == InPlace }

  // The disposal: in the wakeup that finds the transaction in FILESTORE. The
  // transaction has failed if there is an error, the inactivity timeout of this very
  // wakeup included, or it was never complete.
  predicate Failed(st: Tx) { !st.Ok() || (!st.com.inactFired && st.inactTimer == 0) || !st.com.isComplete }

  predicate Trusted(st: Tx) { !st.reliable || (st.data.finFs == FS_RETAINED && st.data.finDc == DC_COMPLETE) }

  lemma SourceFate(cfg: Config, st: Tx, src: seq<uint8>, env: Env)
    requires 0 < st.cap && st.Active() && st.data.sub == FileStore && st.source == InPlace
    ensures var t := Step(cfg, st, src, Wakeup(env)).0;
            && t.phase == Hold && t.data.sub == Complete
            && (t.source == MovedToFailDir <==> Failed(st) && !st.flags.cmdTx && env.failDir && env.disposeOk)
            && (t.source.Gone() <==> !Failed(st) && !st.keep && Trusted(st) && env.disposeOk)
            && (t.source == MovedToMoveDir <==> t.source.Gone() && env.moveDir)
  {
    hide InactivityTick, AckTimerTick, CheckState, Maintain;
    TimersTell(st);
    DisposalFate(cfg, AckTimerTick(InactivityTick(st)), env);
    MaintainKeepsPlace(cfg, TickState(cfg, st, env), env.bufOk);
  }

  lemma TimersTell(st: Tx)
    requires st.Active() && st.data.sub != DataNormal
    ensures var b := AckTimerTick(InactivityTick(st));
            && SameFile(st, b) && b.phase == st.phase && b.com.closeReq == st.com.closeReq
            && (b.Ok() <==> st.Ok() && (st.com.inactFired || st.inactTimer != 0))
  {
    hide InactivityTick, AckTimerTick, SameFile;
    TimersWake(st);
    InactivityTells(st);
    AckTimerTells(InactivityTick(st));
  }

  lemma InactivityTells(st: Tx)
    requires st.Active() && st.data.sub != DataNormal
    ensures var b := InactivityTick(st);
            && b.phase == st.phase && b.com.closeReq == st.com.closeReq
            && (b.Ok() <==> st.Ok() && (st.com.inactFired || st.inactTimer != 0))
  {
  }

  lemma AckTimerTells(st: Tx)
    ensures var b := AckTimerTick(st);
            b.phase == st.phase && b.com.closeReq == st.com.closeReq && b.status == st.status
  {
  }

  lemma DisposalFate(cfg: Config, st: Tx, env: Env)
    requires st.data.sub == FileStore && st.source == InPlace
    ensures var t := CheckState(cfg, st, env);
            && t.phase == Hold && t.data.sub == Complete
            && (t.source == MovedToFailDir <==>
                  (!st.Ok() || !st.com.isComplete) && !st.flags.cmdTx && env.failDir && env.disposeOk)
            && (t.source.Gone() <==> st.Ok() && st.com.isComplete && !st.keep && Trusted(st) && env.disposeOk)
            && (t.source == MovedToMoveDir <==> t.source.Gone() && env.moveDir)
  {
  }

  lemma MaintainKeepsPlace(cfg: Config, st: Tx, bufOk: bool)
    ensures var t := Maintain(cfg, st, bufOk).0;
            t.phase == st.phase && t.data == st.data && t.source == st.source && t.com.closeReq == st.com.closeReq
            && t.com.inactFired == st.com.inactFired && t.inactTimer == st.inactTimer
            && t.status == st.status && t.fdOpen == st.fdOpen
  {
  }

  // Nothing else touches the source, in any run, and nothing touches it twice.
  lemma SourceMovesOnce(cfg: Config, st: Tx, src: seq<uint8>, e: Event)
    requires 0 < st.cap && Placing(st)
    ensures var t := Step(cfg, st, src, e).0;
            Placing(t) && (t.source != st.source ==> e.Wakeup? && st.Active() && st.data.sub == FileStore)
  {
    hide Recv, Tick, TickNak, SendNewData;
    match e {
      case Arrive(pkt) => RecvNotes(cfg, st, pkt);
      case Wakeup(env) => TickPlaces(cfg, st, env);
      case Requests(env) => RequestsFeed(cfg, st, src, env);
      case NewData(env) => NewDataFeeds(cfg, st, src, env);
      case _ =>
    }
  }

  lemma TickPlaces(cfg: Config, st: Tx, env: Env)
    requires Placing(st)
    ensures var t := Tick(cfg, st, env).tx;
            Placing(t) && (t.source != st.source ==> st.Active() && st.data.sub == FileStore)
  {
    hide InactivityTick, AckTimerTick, CheckState, Maintain;
    TimersWake(st);
    CheckPlaces(cfg, AckTimerTick(InactivityTick(st)), env);
    MaintainKeepsPlace(cfg, TickState(cfg, st, env), env.bufOk);
  }

  lemma CheckPlaces(cfg: Config, st: Tx, env: Env)
    requires Placing(st)
    ensures var t := CheckState(cfg, st, env);
            Placing(t) && (t.source != st.source ==> st.data.sub == FileStore)
  {
    hide Finalize, IsError;
  }

  lemma {:induction false} RunPlaces(cfg: Config, st: Tx, src: seq<uint8>, es: seq<Event>)
    requires 0 < st.cap && Placing(st)
    ensures Placing(Run(cfg, st, src, es).0)
    decreases |es|
  {
    if es != [] {
      hide Step, Placing;
      StepKeepsRoom(cfg, st, src, es[0]);
      SourceMovesOnce(cfg, st, src, es[0]);
      RunPlaces(cfg, Step(cfg, st, src, es[0]).0, src, es[1..]);
    }
  }

  // ---------- sending file data ----------

  // One call that sends new data from a clean transaction: without a buffer nothing
  // happens and nothing is wrong; else data go out and the offset moves on, or there is
  // a read failure.
  lemma NewDataStatus(cfg: Config, st: Tx, src: seq<uint8>, env: Env)
    requires st.data.sub == DataNormal && st.Ok() && st.foffs < st.fsize
    ensures var (t, sent) := SendNewData(cfg, st, src, env);
            && (!env.bufOk ==> t == st && sent == [])
            && (t.Ok() ==> t.status == st.status) && (!t.Ok() ==> t.status == ST_READ_FAILURE && t.foffs == st.foffs)
            && (env.bufOk ==> (t.Ok() <==> st.foffs < t.foffs) && (t.Ok() ==> |sent| == 1))
  {
    hide SendFileData;
    BlockSent(cfg, st, src, st.foffs, st.fsize - st.foffs, true, env);
  }

  lemma BlockSent(cfg: Config, st: Tx, src: seq<uint8>, foffs: nat, want: nat, calcCrc: bool, env: Env)
    ensures var r := SendFileData(cfg, st, src, foffs, want, calcCrc, env);
            && r.tx.status == st.status && r.tx.foffs == st.foffs && r.tx.flags == st.flags && r.tx.chunks == st.chunks
            && (r.result.Sent? ==> |r.sent| == 1) && (!r.result.Sent? ==> r.sent == [])
            && (!env.bufOk <==> r.result.NoBuffer?) && (!env.bufOk ==> r.tx == st)
  {
    hide Digest;
  }

  // One call that serves requests: nothing that fails there is an error, nor is it
  // forgotten; the pending flag falls exactly with the list empty.
  lemma RequestStatus(cfg: Config, st: Tx, src: seq<uint8>, env: Env)
    ensures var (t, sent) := TickNak(cfg, st, src, env);
            && t.status == st.status && |sent| <= 1
            && (sent == [] ==> t.chunks == st.chunks) && (!env.bufOk ==> sent == [])
            && (t.flags.fdNakPending <==> st.flags.fdNakPending && st.chunks != [])
  {
    hide SendFileData, RemoveFromFirst;
    if st.chunks != [] {
      BlockSent(cfg, st, src, st.chunks[0].offset, st.chunks[0].size, false, env);
    }
  }

  // ---------- acknowledging FINs ----------

  // An ACK of a sender names the FIN and its first condition code, and says whether
  // the transaction is still active; the header says class 2 exactly then.
  predicate AnswersFin(p: Packet, cc: nat) {
    && p.pdu.Ack? && p.pdu.directive == DIR_FIN && p.pdu.cc == cc
    && p.pdu.status == (if p.unacknowledged then ACK_STATUS_TERMINATED else ACK_STATUS_ACTIVE)
  }

  // A class 2 transaction that took a FIN with this code first.
  ghost predicate Heard(st: Tx, cc: nat) {
    0 < st.cap && st.reliable && st.flags.finCount != 0 && st.data.peerCc == cc && (st.Active() ==> st.phase == S2)
  }

  lemma StepHeard(cfg: Config, st: Tx, src: seq<uint8>, e: Event, cc: nat)
    requires Heard(st, cc)
    ensures var (t, sent) := Step(cfg, st, src, e);
            Heard(t, cc) && forall p :: p in sent && p.pdu.Ack? ==> AnswersFin(p, cc)
  {
    hide Recv, Tick, TickNak, SendNewData;
    match e {
      case Arrive(pkt) =>
        RecvNotes(cfg, st, pkt);
        PeerStays(cfg, st, pkt);
      case Wakeup(env) => TickHeard(cfg, st, env, cc);
      case Requests(env) => RequestsFeed(cfg, st, src, env);
      case NewData(env) => NewDataFeeds(cfg, st, src, env);
      case _ =>
    }
  }

  lemma PeerStays(cfg: Config, st: Tx, pkt: Packet)
    requires 0 < st.cap && st.flags.finCount != 0
    ensures Recv(cfg, st, pkt).data.peerCc == st.data.peerCc
  {
    hide Recv, HandlerOf, RecvNak;
    RecvRuns(cfg, st, pkt);
    if early :| Recv(cfg, st, pkt) == ArmInact(cfg, HandlerOf(cfg, st, pkt.pdu, early)) {
      HandlerKeepsPeer(cfg, st, pkt.pdu, early);
    }
  }

  lemma HandlerKeepsPeer(cfg: Config, st: Tx, p: Pdu, early: bool)
    requires 0 < st.cap && st.flags.finCount != 0
    ensures HandlerOf(cfg, st, p, early).data.peerCc == st.data.peerCc
  {
    hide RecvNak;
    if p.Nak? {
      NakNotes(st, p.segs);
    }
  }

  lemma TickHeard(cfg: Config, st: Tx, env: Env, cc: nat)
    requires Heard(st, cc)
    ensures var r := Tick(cfg, st, env);
            Heard(r.tx, cc) && forall p :: p in r.sent && p.pdu.Ack? ==> AnswersFin(p, cc)
  {
    hide InactivityTick, AckTimerTick, CheckState, Maintain;
    TimersHear(st, cc);
    CheckHears(cfg, AckTimerTick(InactivityTick(st)), env, cc);
    MaintainHears(cfg, TickState(cfg, st, env), env.bufOk, cc);
  }

  lemma TimersHear(st: Tx, cc: nat)
    requires Heard(st, cc)
    ensures Heard(InactivityTick(st), cc) && Heard(AckTimerTick(InactivityTick(st)), cc)
    ensures InactivityTick(st).phase == st.phase
  {
    hide InactivityTick, AckTimerTick;
    TimersKeepTerms(st);
    TimersWake(st);
  }

  lemma CheckHears(cfg: Config, st: Tx, env: Env, cc: nat)
    requires Heard(st, cc)
    ensures Heard(CheckState(cfg, st, env), cc)
  {
    hide Check, Enter;
    DecisionHears(cfg, st, env, cc);
    EnterHears(cfg, Check(cfg, st, env).0, Check(cfg, st, env).1, cc);
  }

  lemma DecisionHears(cfg: Config, st: Tx, env: Env, cc: nat)
    requires Heard(st, cc)
    ensures Heard(Check(cfg, st, env).0, cc)
  {
    hide IsError;
  }

  lemma EnterHears(cfg: Config, st: Tx, next: Sub, cc: nat)
    requires Heard(st, cc)
    ensures Heard(Enter(cfg, st, next), cc)
  {
    hide Finalize;
  }

  lemma MaintainHears(cfg: Config, st: Tx, bufOk: bool, cc: nat)
    requires Heard(st, cc)
    ensures var (t, sent) := Maintain(cfg, st, bufOk);
            Heard(t, cc) && forall p :: p in sent && p.pdu.Ack? ==> AnswersFin(p, cc)
  {
  }

  // Over every run from the first FIN on, each ACK answers that FIN.
  lemma {:induction false} FinAcks(cfg: Config, st: Tx, src: seq<uint8>, es: seq<Event>, cc: nat)
    requires Heard(st, cc)
    ensures Heard(Run(cfg, st, src, es).0, cc)
    ensures forall p :: p in Run(cfg, st, src, es).1 && p.pdu.Ack? ==> AnswersFin(p, cc)
    decreases |es|
  {
    if es != [] {
      hide Step, Heard, AnswersFin;
      assert 0 < st.cap by { HasRoom(st, cc); }
      StepKeepsRoom(cfg, st, src, es[0]);
      StepHeard(cfg, st, src, es[0], cc);
      FinAcks(cfg, Step(cfg, st, src, es[0]).0, src, es[1..], cc);
    }
  }

  lemma HasRoom(st: Tx, cc: nat)
    requires Heard(st, cc)
    ensures 0 < st.cap
  {
  }

  // A FIN not answered yet is answered by the next wakeup that has a buffer and
  // neither metadata nor an EOF to send, in every sub-state after the EOF.
  lemma FinAnswered(cfg: Config, st: Tx, env: Env)
    requires Heard(st, st.data.peerCc) && st.data.sub != DataNormal && env.bufOk
    requires st.flags.finAckCount != st.flags.finCount && !st.flags.sendMd && !st.flags.sendEof
    ensures var r := Tick(cfg, st, env);
            && r.tx.flags.finAckCount == r.tx.flags.finCount == st.flags.finCount
            && |r.sent| == 1 && AnswersFin(r.sent[0], st.data.peerCc)
            && (r.sent[0].unacknowledged <==> !r.tx.Active())
  {
    hide InactivityTick, AckTimerTick, CheckState, Maintain;
    TimersHear(st, st.data.peerCc);
    TimersWake(st);
    NothingNewDue(cfg, AckTimerTick(InactivityTick(st)), env);
    AnswerSent(cfg, TickState(cfg, st, env));
  }

  lemma NothingNewDue(cfg: Config, st: Tx, env: Env)
    requires Heard(st, st.data.peerCc) && st.data.sub != DataNormal
    requires st.flags.finAckCount != st.flags.finCount && !st.flags.sendMd && !st.flags.sendEof
    ensures var t := CheckState(cfg, st, env);
            t.flags == st.flags && t.data.peerCc == st.data.peerCc && Heard(t, t.data.peerCc)
  {
    hide Finalize, IsError;
  }

  lemma AnswerSent(cfg: Config, st: Tx)
    requires Heard(st, st.data.peerCc) && st.flags.finAckCount != st.flags.finCount && !st.flags.sendMd
    requires !st.flags.sendEof
    ensures var (t, sent) := Maintain(cfg, st, true);
            && t.flags.finAckCount == t.flags.finCount == st.flags.finCount && t.phase == st.phase
            && |sent| == 1 && AnswersFin(sent[0], st.data.peerCc) && (sent[0].unacknowledged <==> !t.Active())
  {
  }

  // ---------- one packet a wakeup ----------

  // What is due goes out one packet a wakeup, metadata before the EOF and that before
  // an ACK, and an ACK in class 2 only; without a buffer it stays due.
  lemma OnePacket(cfg: Config, st: Tx, bufOk: bool)
    ensures var (t, sent) := Maintain(cfg, st, bufOk);
            && |sent| <= 1 && (!bufOk ==> t == st && sent == [])
            && (bufOk ==>
                  && ((exists p :: p in sent && p.pdu.Metadata?) <==> st.flags.sendMd)
                  && ((exists p :: p in sent && p.pdu.Eof?) <==> !st.flags.sendMd && st.flags.sendEof)
                  && ((exists p :: p in sent && p.pdu.Ack?) <==>
                        !st.flags.sendMd && !st.flags.sendEof && st.reliable
                        && st.flags.finAckCount != st.flags.finCount)
                  && !t.flags.sendMd && (st.flags.sendMd || !t.flags.sendEof))
  {
    hide ToConditionCode;
    var (t, sent) := Maintain(cfg, st, bufOk);
    if sent != [] {
      assert forall p :: p in sent ==> p == sent[0];
      assert sent[0] in sent;
    }
  }

  // A cancel is an error of a clean transaction, once.
  lemma CancelNoted(cfg: Config, st: Tx, src: seq<uint8>)
    requires 0 < st.cap && !st.com.canceled
    ensures var (t, sent) := Step(cfg, st, src, CancelCmd);
            && t.com.canceled && sent == [] && t.source == st.source && t.data.sub == st.data.sub
            && t.status == if st.Ok() then ST_CANCEL_REQUEST_RECEIVED else st.status
  {
  }

  // ---------- closure ----------

  // With closure requested a class 1 sender waits for the FIN, without it it does not:
  // the wakeup of a clean one whose EOF is out ends the wait exactly then.
  lemma ClosureIff(cfg: Config, st: Tx, src: seq<uint8>, env: Env)
    requires 0 < st.cap && st.phase == S1 && !st.reliable && st.data.sub == DataEof && st.Ok() && !st.flags.sendEof
    requires st.com.inactFired || st.inactTimer != 0
    ensures var t := Step(cfg, st, src, Wakeup(env)).0;
            && (t.data.sub == FileStore <==> !st.com.closeReq || st.flags.finCount != 0)
            && (t.data.sub == FileStore ==> t.com.isComplete) && (t.data.sub != FileStore ==> t.data.sub == DataEof)
  {
    hide InactivityTick, AckTimerTick, CheckState, Maintain;
    TimersTell(st);
    ClosureCheck(cfg, AckTimerTick(InactivityTick(st)), env);
    MaintainWakes(cfg, TickState(cfg, st, env), env.bufOk);
    MaintainKeepsComplete(cfg, TickState(cfg, st, env), env.bufOk);
  }

  lemma ClosureCheck(cfg: Config, st: Tx, env: Env)
    requires !st.reliable && st.data.sub == DataEof && st.Ok() && !st.flags.sendEof
    ensures var t := CheckState(cfg, st, env);
            && (t.data.sub == FileStore <==> !st.com.closeReq || st.flags.finCount != 0)
            && (t.data.sub == FileStore ==> t.com.isComplete) && (t.data.sub != FileStore ==> t.data.sub == DataEof)
  {
  }

  lemma MaintainKeepsComplete(cfg: Config, st: Tx, bufOk: bool)
    ensures Maintain(cfg, st, bufOk).0.com.isComplete == st.com.isComplete
  {
  }

  // Nothing in a sender ever requests closure, so over every run no metadata do.
  ghost predicate Plain(st: Tx) { 0 < st.cap && !st.com.closeReq }

  lemma StepPlain(cfg: Config, st: Tx, src: seq<uint8>, e: Event)
    requires Plain(st)
    ensures var (t, sent) := Step(cfg, st, src, e);
            Plain(t) && forall p :: p in sent && p.pdu.Metadata? ==> !p.pdu.closeReq
  {
    hide Recv, Tick, TickNak, SendNewData;
    match e {
      case Arrive(pkt) => RecvNotes(cfg, st, pkt);
      case Wakeup(env) => TickPlain(cfg, st, env);
      case Requests(env) => RequestsFeed(cfg, st, src, env);
      case NewData(env) => NewDataFeeds(cfg, st, src, env);
      case _ =>
    }
  }

  lemma TickPlain(cfg: Config, st: Tx, env: Env)
    requires Plain(st)
    ensures var r := Tick(cfg, st, env);
            Plain(r.tx) && forall p :: p in r.sent && p.pdu.Metadata? ==> !p.pdu.closeReq
  {
    hide CheckState, Maintain, InactivityTick, AckTimerTick;
    TimersKeepTerms(st);
    CheckKeepsClock(cfg, AckTimerTick(InactivityTick(st)), env);
    MaintainPlain(cfg, TickState(cfg, st, env), env.bufOk);
  }

  lemma MaintainPlain(cfg: Config, st: Tx, bufOk: bool)
    requires Plain(st)
    ensures var (t, sent) := Maintain(cfg, st, bufOk);
            Plain(t) && forall p :: p in sent && p.pdu.Metadata? ==> !p.pdu.closeReq
  {
  }

  lemma {:induction false} ClosureNeverAsked(cfg: Config, st: Tx, src: seq<uint8>, es: seq<Event>)
    requires Plain(st)
    ensures Plain(Run(cfg, st, src, es).0)
    ensures forall p :: p in Run(cfg, st, src, es).1 && p.pdu.Metadata? ==> !p.pdu.closeReq
    decreases |es|
  {
    if es != [] {
      hide Step;
      StepKeepsRoom(cfg, st, src, es[0]);
      StepPlain(cfg, st, src, es[0]);
      ClosureNeverAsked(cfg, Step(cfg, st, src, es[0]).0, src, es[1..]);
    }
  }

  // ---------- errors end a transfer, and waiting for buffers does not ----------

  // Wakeups until holdover: one for each sub-state there is still to enter.
  function StagesLeft(st: Tx): nat {
    if !st.Active() then 0
    else match st.data.sub
      case DataNormal => if st.fsize <= st.foffs then 3 else 2
      case DataEof => 2
      case FileStore => 1
      case Complete => 1
  }

  lemma ErrorTick(cfg: Config, st: Tx, env: Env)
    requires !st.Ok() && st.Active() && st.data.sub != Complete
    ensures var t := Tick(cfg, st, env).tx;
            !t.Ok() && StagesLeft(t) + 1 == StagesLeft(st) && (t.Active() ==> t.data.sub != Complete)
  {
    hide InactivityTick, AckTimerTick, CheckState, Maintain;
    var b := AckTimerTick(InactivityTick(st));
    TimersWake(st);
    TimersKeepTerms(st);
    ErrorCheck(cfg, b, env);
    MaintainKeepsPlace(cfg, TickState(cfg, st, env), env.bufOk);
    MaintainWakes(cfg, TickState(cfg, st, env), env.bufOk);
  }

  lemma ErrorCheck(cfg: Config, st: Tx, env: Env)
    requires !st.Ok() && st.Active() && st.data.sub != Complete
    ensures var t := CheckState(cfg, st, env);
            && !t.Ok() && t.foffs == st.foffs && t.fsize == st.fsize
            && StagesLeft(t) + 1 == StagesLeft(st) && (t.Active() ==> t.data.sub != Complete)
  {
    hide Finalize;
  }

  // Held over, a sender has no file open, over every run.
  ghost predicate Closed(st: Tx) { 0 < st.cap && (!st.Active() ==> !st.fdOpen) }

  lemma StepCloses(cfg: Config, st: Tx, src: seq<uint8>, e: Event)
    requires Closed(st)
    ensures Closed(Step(cfg, st, src, e).0)
  {
    hide Recv, Tick, TickNak, SendNewData;
    match e {
      case Arrive(pkt) => RecvNotes(cfg, st, pkt);
      case Wakeup(env) => TickCloses(cfg, st, env);
      case Requests(env) => RequestsFeed(cfg, st, src, env);
      case NewData(env) => NewDataFeeds(cfg, st, src, env);
      case _ =>
    }
  }

  lemma TickCloses(cfg: Config, st: Tx, env: Env)
    requires Closed(st)
    ensures Closed(Tick(cfg, st, env).tx)
  {
    hide InactivityTick, AckTimerTick, CheckState, Maintain;
    TimersWake(st);
    TimersKeepTerms(st);
    if st.Active() {
      CheckCloses(cfg, AckTimerTick(InactivityTick(st)), env);
    }
    MaintainKeepsPlace(cfg, TickState(cfg, st, env), env.bufOk);
    MaintainWakes(cfg, TickState(cfg, st, env), env.bufOk);
  }

  lemma CheckCloses(cfg: Config, st: Tx, env: Env)
    requires Closed(st) && st.Active()
    ensures Closed(CheckState(cfg, st, env))
  {
    hide Check, Enter;
    DecisionStays(cfg, st, env);
    CheckKeepsClock(cfg, st, env);
    EnterCloses(cfg, Check(cfg, st, env).0, Check(cfg, st, env).1);
  }

  lemma DecisionStays(cfg: Config, st: Tx, env: Env)
    ensures Check(cfg, st, env).0.phase == st.phase && Check(cfg, st, env).0.cap == st.cap
  {
  }

  lemma EnterCloses(cfg: Config, st: Tx, next: Sub)
    requires Closed(st) && st.Active()
    ensures Closed(Enter(cfg, st, next))
  {
    hide Finalize;
  }

  lemma {:induction false} RunCloses(cfg: Config, st: Tx, src: seq<uint8>, es: seq<Event>)
    requires Closed(st)
    ensures Closed(Run(cfg, st, src, es).0)
    decreases |es|
  {
    if es != [] {
      hide Step;
      StepKeepsRoom(cfg, st, src, es[0]);
      StepCloses(cfg, st, src, es[0]);
      RunCloses(cfg, Step(cfg, st, src, es[0]).0, src, es[1..]);
    }
  }

  // Whatever the error and with or without buffers, a sender that has one is held over
  // after exactly as many wakeups as sub-states are left, its retries cut short.
  lemma {:induction false} ErrorEnds(cfg: Config, st: Tx, envs: seq<Env>)
    requires !st.Ok() && st.Active() && st.data.sub != Complete && |envs| <= StagesLeft(st) <= 3
    ensures var t := Wakes(cfg, st, envs);
            t.Active() <==> |envs| < StagesLeft(st)
    decreases |envs|
  {
    if envs != [] {
      hide Tick;
      ErrorTick(cfg, st, envs[0]);
      var t := Tick(cfg, st, envs[0]).tx;
      if t.Active() {
        StagesBound(t);
        ErrorEnds(cfg, t, envs[1..]);
      } else {
        assert envs[1..] == [];
      }
    }
  }

  lemma StagesBound(st: Tx)
    ensures StagesLeft(st) <= 3 && (st.Active() ==> 0 < StagesLeft(st))
  {
  }

  function Wakes(cfg: Config, st: Tx, envs: seq<Env>): Tx
    decreases |envs|
  {
    if envs == [] then st else Wakes(cfg, Tick(cfg, st, envs[0]).tx, envs[1..])
  }

  // While file data are still to be sent the inactivity timer stands still.
  lemma NoTimeoutWhileSending(cfg: Config, st: Tx, env: Env)
    requires st.Active() && st.data.sub == DataNormal && st.foffs < st.fsize && !st.com.inactFired
    ensures var t := Tick(cfg, st, env).tx;
            t.inactTimer == st.inactTimer && !t.com.inactFired && t.status == st.status
  {
    hide CheckState, Maintain;
    NormalCheck(cfg, AckTimerTick(InactivityTick(st)), env);
    MaintainKeepsPlace(cfg, TickState(cfg, st, env), env.bufOk);
    MaintainWakes(cfg, TickState(cfg, st, env), env.bufOk);
  }

  lemma NormalCheck(cfg: Config, st: Tx, env: Env)
    requires st.data.sub == DataNormal && st.foffs < st.fsize
    ensures var t := CheckState(cfg, st, env);
            t.inactTimer == st.inactTimer && t.com.inactFired == st.com.inactFired && t.status == st.status
  {
  }

  // ---------- recycling ----------

  // Held over, a sender stays for exactly as many wakeups as its timer has left and
  // one, and is recycled in that one; the timer running down is no error then.
  lemma HoldTick(cfg: Config, st: Tx, env: Env)
    requires !st.Active() && st.data.sub != DataNormal
    ensures var r := Tick(cfg, st, env);
            && !r.tx.Active() && r.tx.data.sub != DataNormal
            && r.tx.status == st.status && r.tx.fdOpen == st.fdOpen
            && (r.recycled <==> st.com.inactFired || st.inactTimer == 0)
            && (!r.recycled ==> !r.tx.com.inactFired && r.tx.inactTimer + 1 == st.inactTimer)
  {
    hide Maintain;
    MaintainKeepsPlace(cfg, TickState(cfg, st, env), env.bufOk);
  }

  lemma {:induction false} HoldLasts(cfg: Config, st: Tx, envs: seq<Env>)
    requires !st.Active() && st.data.sub != DataNormal && !st.com.inactFired && |envs| == st.inactTimer + 1
    ensures forall k :: 0 <= k < |envs| ==>
            (Tick(cfg, Wakes(cfg, st, envs[..k]), envs[k]).recycled <==> k == st.inactTimer)
    decreases |envs|
  {
    hide Tick;
    HoldTick(cfg, st, envs[0]);
    var r := Tick(cfg, st, envs[0]);
    if !r.recycled {
      HoldLasts(cfg, r.tx, envs[1..]);
      forall k | 0 < k < |envs|
        ensures Tick(cfg, Wakes(cfg, st, envs[..k]), envs[k]).recycled <==> k == st.inactTimer
      {
        assert envs[..k][1..] == envs[1..][..k - 1] && envs[..k][0] == envs[0] && envs[1..][k - 1] == envs[k];
      }
    }
    assert envs[..0] == [];
  }

  // While active it is never recycled, but in the wakeup that holds it over after a
  // timeout.
  lemma ActiveRecycled(cfg: Config, st: Tx, env: Env)
    requires st.Active()
    ensures var r := Tick(cfg, st, env);
            r.recycled <==> !r.tx.Active() && (st.com.inactFired || (st.data.sub != DataNormal && st.inactTimer == 0))
  {
    hide CheckState, Maintain, InactivityTick, AckTimerTick;
    TimersKeepTerms(st);
    CheckKeepsClock(cfg, AckTimerTick(InactivityTick(st)), env);
    MaintainKeepsPlace(cfg, TickState(cfg, st, env), env.bufOk);
  }

  // What a state check leaves alone.
  ghost predicate SameClock(st: Tx, t: Tx) {
    t.com.inactFired == st.com.inactFired && t.com.closeReq == st.com.closeReq && t.cap == st.cap
  }

  lemma CheckKeepsClock(cfg: Config, st: Tx, env: Env)
    ensures SameClock(st, CheckState(cfg, st, env))
  {
    hide Check, Enter;
    DecisionKeepsClock(cfg, st, env);
    EnterKeepsClock(cfg, Check(cfg, st, env).0, Check(cfg, st, env).1);
  }

  lemma DecisionKeepsClock(cfg: Config, st: Tx, env: Env)
    ensures SameClock(st, Check(cfg, st, env).0)
  {
    hide CheckDataEof1, CheckDataEof2, HandleFileRetention;
    Eof1KeepsClock(st);
    Eof2KeepsClock(cfg, st);
    StoreKeepsClock(st, env);
  }

  lemma Eof1KeepsClock(st: Tx)
    ensures SameClock(st, CheckDataEof1(st).0)
  {
  }

  lemma Eof2KeepsClock(cfg: Config, st: Tx)
    ensures SameClock(st, CheckDataEof2(cfg, st).0)
  {
  }

  lemma StoreKeepsClock(st: Tx, env: Env)
    ensures SameClock(st, HandleFileRetention(st, env))
  {
  }

  lemma EnterKeepsClock(cfg: Config, st: Tx, next: Sub)
    ensures SameClock(st, Enter(cfg, st, next))
  {
    hide Finalize;
  }

  // What the timers leave alone.
  ghost predicate SameTerms(st: Tx, t: Tx) {
    t.phase == st.phase && t.com.closeReq == st.com.closeReq && t.cap == st.cap
  }

  lemma InactivityTerms(st: Tx)
    ensures SameTerms(st, InactivityTick(st))
  {
  }

  lemma InactivityFires(st: Tx)
    ensures InactivityTick(st).com.inactFired
       <==> st.com.inactFired || (st.data.sub != DataNormal && st.inactTimer == 0)
  {
    hide IsError;
  }

  lemma AckTimerTerms(st: Tx)
    ensures SameTerms(st, AckTimerTick(st)) && AckTimerTick(st).com.inactFired == st.com.inactFired
  {
  }

  lemma TimersKeepTerms(st: Tx)
    ensures SameTerms(st, InactivityTick(st)) && SameTerms(st, AckTimerTick(InactivityTick(st)))
    ensures AckTimerTick(InactivityTick(st)).com.inactFired
       <==> st.com.inactFired || (st.data.sub != DataNormal && st.inactTimer == 0)
  {
    hide InactivityTick, AckTimerTick;
    InactivityTerms(st);
    InactivityFires(st);
    AckTimerTerms(InactivityTick(st));
  }

  // A sender that is abandoned before its EOF stays in holdover for ever: its timer
  // stands still as if file data were still to be sent, whatever arrives.
  ghost predicate Forgotten(st: Tx) { 0 < st.cap && !st.Active() && st.data.sub == DataNormal && !st.com.inactFired }

  lemma StepForgotten(cfg: Config, st: Tx, src: seq<uint8>, e: Event)
    requires Forgotten(st)
    ensures Forgotten(Step(cfg, st, src, e).0) && (e.Wakeup? ==> !Tick(cfg, st, e.env).recycled)
  {
    hide Recv, Maintain, TickNak, SendNewData;
    match e {
      case Arrive(pkt) => RecvNotes(cfg, st, pkt);
      case Wakeup(env) =>
        MaintainKeepsPlace(cfg, TickState(cfg, st, env), env.bufOk);
        MaintainWakes(cfg, TickState(cfg, st, env), env.bufOk);
      case Requests(env) => RequestsFeed(cfg, st, src, env);
      case NewData(env) => NewDataFeeds(cfg, st, src, env);
      case _ =>
    }
  }

  // So over every run; and every other held-over sender is recycled in time (HoldLasts).
  lemma {:induction false} NeverRecycled(cfg: Config, st: Tx, src: seq<uint8>, es: seq<Event>, env: Env)
    requires Forgotten(st)
    ensures Forgotten(Run(cfg, st, src, es).0) && !Tick(cfg, Run(cfg, st, src, es).0, env).recycled
    decreases |es|
  {
    hide Step, Tick, Forgotten;
    if es != [] {
      assert 0 < st.cap by { ForgottenRoom(st); }
      StepKeepsRoom(cfg, st, src, es[0]);
      StepForgotten(cfg, st, src, es[0]);
      NeverRecycled(cfg, Step(cfg, st, src, es[0]).0, src, es[1..], env);
    } else {
      assert 0 < st.cap by { ForgottenRoom(st); }
      StepForgotten(cfg, st, src, Wakeup(env));
    }
  }

  lemma ForgottenRoom(st: Tx)
    requires Forgotten(st)
    ensures 0 < st.cap
  {
  }

  // The input: any sender abandoned while it has data to send.
  lemma AbandonForgets(cfg: Config, st: Tx)
    requires 0 < st.cap && st.data.sub == DataNormal && !st.com.inactFired
    ensures Forgotten(Finish(cfg, st))
  {
  }
}
