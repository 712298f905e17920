/** What every run of a sending transaction keeps, whatever arrives and however the calls it makes end. */
module TxRuns {
  import opened Cfdp
  import opened Crc
  import opened ChunkSpec
  import opened Link
  import opened TxSpec
  import opened TxReads
  import NR = NakRepair

  datatype Event =
    | Arrive(pkt: Packet)
    | Wakeup(env: Env)
    | Requests(env: Env)
    | NewData(env: Env)
    | CancelCmd | AbandonCmd

  function Step(cfg: Config, st: Tx, src: seq<uint8>, e: Event): (Tx, seq<Packet>)
    requires 0 < st.cap
  {
    match e
    case Arrive(pkt) => (Recv(cfg, st, pkt), [])
    case Wakeup(env) => var r := Tick(cfg, st, env); (r.tx, r.sent)
    case Requests(env) => TickNak(cfg, st, src, env)
    case NewData(env) => SendNewData(cfg, st, src, env)
    case CancelCmd => (Cancel(st), [])
    case AbandonCmd => (Finish(cfg, st), [])
  }

  // ---------- frames: what the steps leave alone ----------

  // What only sending data changes.
  ghost predicate SamePlace(st: Tx, t: Tx) {
    && t.cap == st.cap && t.fsize == st.fsize && t.foffs == st.foffs && t.reliable == st.reliable && t.keep == st.keep
    && t.pos == st.pos && t.data.cachedPos == st.data.cachedPos && t.flags.cmdTx == st.flags.cmdTx
    && t.srcLen == st.srcLen && t.dstLen == st.dstLen
  }

  // How a received PDU may change the state: the list of requests, and notes.
  ghost predicate Noted(st: Tx, t: Tx) {
    && SamePlace(st, t) && t.phase == st.phase && t.crc == st.crc && t.com == st.com
    && t.flags.sendEof == st.flags.sendEof && t.flags.finAckCount == st.flags.finAckCount
    && t.data.sub == st.data.sub && t.data.acknak == st.data.acknak && t.source == st.source
    && t.fdOpen == st.fdOpen && t.ackTimer == st.ackTimer
    && (st.flags.eofAckRecv ==> t.flags.eofAckRecv)
    && (st.flags.finCount != 0 ==> t.flags.finCount != 0)
    && (st.flags.finCount != 0 ==> t.data.finFs == st.data.finFs && t.data.finDc == st.data.finDc)
    && (t.Ok() ==> st.Ok()) && (!st.Ok() ==> t.status == st.status)
  }

  lemma {:induction false} NakNotes(st: Tx, segs: seq<Seg>)
    requires 0 < st.cap
    ensures var t := RecvNak(st, segs);
            t == st.(chunks := t.chunks,
              flags := st.flags.(fdNakPending := t.flags.fdNakPending, sendMd := t.flags.sendMd))
    decreases |segs|
  {
    if segs != [] {
      SegNotes(st, segs[0]);
      hide RecvSeg;
      NakNotes(RecvSeg(st, segs[0]), segs[1..]);
    }
  }

  lemma SegNotes(st: Tx, sr: Seg)
    requires 0 < st.cap
    ensures var t := RecvSeg(st, sr);
            t == st.(chunks := t.chunks,
              flags := st.flags.(fdNakPending := t.flags.fdNakPending, sendMd := t.flags.sendMd))
            && t.cap == st.cap
  {
    hide Add;
  }

  lemma NotedTwice(st: Tx, a: Tx, t: Tx)
    requires Noted(st, a) && Noted(a, t)
    ensures Noted(st, t)
  {
  }

  lemma StatusNotes(st: Tx, s: Status)
    ensures Noted(st, st.SetStatus(s)) && st.SetStatus(s).chunks == st.chunks
  {
  }

  lemma CountNotes(st: Tx, n: nat)
    requires st.flags.finCount != 0 ==> n != 0
    ensures var t := st.(flags := st.flags.(finCount := n));
            Noted(st, t)
  {
  }

  // The first FIN is noted, all are counted.
  lemma FirstNotes(st: Tx, cc: nat, dc: nat, fs: nat)
    requires st.flags.finCount == 0
    ensures Noted(st, st.(data := st.data.(peerCc := cc, finDc := dc, finFs := fs)))
  {
  }

  lemma FinNotes(cfg: Config, st: Tx, cc: nat, dc: nat, fs: nat)
    ensures Noted(st, RecvFin(cfg, st, cc, dc, fs)) && RecvFin(cfg, st, cc, dc, fs).chunks == st.chunks
  {
    hide Noted;
    var first := st.(data := st.data.(peerCc := cc, finDc := dc, finFs := fs));
    NotesNothing(st);
    if st.flags.finCount == 0 {
      FirstNotes(st, cc, dc, fs);
      StatusNotes(first, cc);
      NotedTwice(st, first, first.SetStatus(cc));
    }
    var a := if st.flags.finCount == 0 then first.SetStatus(cc) else st;
    var (ok, n) := CountUp(cfg, a.flags.finCount);
    var b := a.(flags := a.flags.(finCount := n));
    CountNotes(a, n);
    NotedTwice(st, a, b);
    StatusNotes(b, ST_POS_ACK_LIMIT_REACHED);
    NotedTwice(st, b, b.SetStatus(ST_POS_ACK_LIMIT_REACHED));
  }

  lemma EarlyNotes(cfg: Config, st: Tx, cc: nat, dc: nat, fs: nat)
    ensures Noted(st, EarlyFin(cfg, st, cc, dc, fs)) && EarlyFin(cfg, st, cc, dc, fs).chunks == st.chunks
  {
    hide RecvFin, Noted;
    FinNotes(cfg, st.SetStatus(ST_EARLY_FIN), cc, dc, fs);
    StatusNotes(st, ST_EARLY_FIN);
    NotedTwice(st, st.SetStatus(ST_EARLY_FIN), EarlyFin(cfg, st, cc, dc, fs));
  }

  lemma NakNoted(st: Tx, segs: seq<Seg>)
    requires 0 < st.cap
    ensures Noted(st, RecvNak(st, segs))
  {
    NakNotes(st, segs);
    hide RecvNak;
  }

  lemma AckNotes(st: Tx, directive: nat)
    ensures Noted(st, RecvEofAck(st, directive)) && RecvEofAck(st, directive).chunks == st.chunks
  {
  }

  // The handler that a PDU may run.
  function HandlerOf(cfg: Config, st: Tx, p: Pdu, early: bool): Tx
    requires 0 < st.cap
  {
    match p
    case Fin(cc, dc, fs) => if early then EarlyFin(cfg, st, cc, dc, fs) else RecvFin(cfg, st, cc, dc, fs)
    case Ack(d, _, _) => RecvEofAck(st, d)
    case Nak(segs) => RecvNak(st, segs)
    case _ => st
  }

  lemma HandlerNotes(cfg: Config, st: Tx, p: Pdu, early: bool)
    requires 0 < st.cap
    ensures var t := HandlerOf(cfg, st, p, early);
            Noted(st, t) && (t.chunks == st.chunks || (p.Nak? && t.chunks == RecvNak(st, p.segs).chunks))
  {
    hide RecvFin, EarlyFin, RecvNak, RecvEofAck, Noted;
    match p {
      case Fin(cc, dc, fs) => FinNotes(cfg, st, cc, dc, fs); EarlyNotes(cfg, st, cc, dc, fs);
      case Ack(d, _, _) => AckNotes(st, d);
      case Nak(segs) => NakNoted(st, segs);
      case _ => NotesNothing(st);
    }
  }

  lemma NotesNothing(st: Tx)
    ensures Noted(st, st)
  {
  }

  // A PDU runs one handler, or none, and puts off the inactivity timer.
  lemma RecvRuns(cfg: Config, st: Tx, pkt: Packet)
    requires 0 < st.cap
    ensures var t := Recv(cfg, st, pkt);
            t == ArmInact(cfg, st) || exists early :: t == ArmInact(cfg, HandlerOf(cfg, st, pkt.pdu, early))
  {
    hide RecvFin, EarlyFin, RecvNak, RecvEofAck, ArmInact;
    assert HandlerOf(cfg, st, pkt.pdu, true) == HandlerOf(cfg, st, pkt.pdu, true);
    assert HandlerOf(cfg, st, pkt.pdu, false) == HandlerOf(cfg, st, pkt.pdu, false);
  }

  lemma ArmNotes(cfg: Config, st: Tx, t: Tx)
    requires Noted(st, t)
    ensures Noted(st, ArmInact(cfg, t)) && ArmInact(cfg, t).chunks == t.chunks
  {
  }

  lemma RecvNotes(cfg: Config, st: Tx, pkt: Packet)
    requires 0 < st.cap
    ensures var t := Recv(cfg, st, pkt);
            Noted(st, t) && (t.chunks == st.chunks || (pkt.pdu.Nak? && t.chunks == RecvNak(st, pkt.pdu.segs).chunks))
  {
    hide Recv, HandlerOf, ArmInact, Noted, RecvNak;
    RecvRuns(cfg, st, pkt);
    NotesNothing(st);
    ArmNotes(cfg, st, st);
    if early :| Recv(cfg, st, pkt) == ArmInact(cfg, HandlerOf(cfg, st, pkt.pdu, early)) {
      HandlerNotes(cfg, st, pkt.pdu, early);
      ArmNotes(cfg, st, HandlerOf(cfg, st, pkt.pdu, early));
    }
  }

  // How a wakeup may change the state: not the data, nor where they are read.
  ghost predicate Woken(st: Tx, t: Tx) {
    && SamePlace(st, t) && t.chunks == st.chunks && (t.fdOpen ==> st.fdOpen)
    && (t.Ok() ==> st.Ok()) && (!st.Ok() ==> t.status == st.status)
  }

  // What the timers leave alone besides.
  ghost predicate SameFile(st: Tx, t: Tx) {
    && t.source == st.source && t.data == st.data && t.com.isComplete == st.com.isComplete
    && t.crc == st.crc && t.flags == st.flags && t.foffs == st.foffs && t.fsize == st.fsize
    && t.reliable == st.reliable && t.keep == st.keep
    && (t.Ok() ==> st.Ok())
  }

  lemma InactivityWakes(st: Tx)
    ensures Woken(st, InactivityTick(st)) && SameFile(st, InactivityTick(st))
  {
  }

  lemma AckTimerWakes(st: Tx)
    ensures Woken(st, AckTimerTick(st)) && SameFile(st, AckTimerTick(st))
  {
  }

  lemma TimersWake(st: Tx)
    ensures Woken(st, InactivityTick(st)) && Woken(st, AckTimerTick(InactivityTick(st)))
    ensures SameFile(st, InactivityTick(st)) && SameFile(st, AckTimerTick(InactivityTick(st)))
  {
    hide InactivityTick, AckTimerTick;
    InactivityWakes(st);
    AckTimerWakes(InactivityTick(st));
  }

  lemma CheckWakes(cfg: Config, st: Tx, env: Env)
    ensures Woken(st, CheckState(cfg, st, env))
  {
    hide Check, Enter;
    var (a, next) := Check(cfg, st, env);
    DecisionWakes(cfg, st, env);
    EnterWakes(cfg, a, next);
  }

  lemma DecisionWakes(cfg: Config, st: Tx, env: Env)
    ensures Woken(st, Check(cfg, st, env).0)
  {
    hide CheckDataEof1, CheckDataEof2, HandleFileRetention;
    Eof1Wakes(st);
    Eof2Wakes(cfg, st);
    StoreWakes(st, env);
  }

  lemma Eof1Wakes(st: Tx)
    ensures Woken(st, CheckDataEof1(st).0)
  {
  }

  lemma Eof2Wakes(cfg: Config, st: Tx)
    ensures Woken(st, CheckDataEof2(cfg, st).0)
  {
  }

  lemma StoreWakes(st: Tx, env: Env)
    ensures Woken(st, HandleFileRetention(st, env))
  {
  }

  lemma EnterWakes(cfg: Config, st: Tx, next: Sub)
    ensures Woken(st, Enter(cfg, st, next))
  {
    hide Finalize;
  }

  lemma MaintainWakes(cfg: Config, st: Tx, bufOk: bool)
    ensures var t := Maintain(cfg, st, bufOk).0;
            Woken(st, t) && t.source == st.source && t.status == st.status && t.data == st.data && t.crc == st.crc
  {
    hide ToConditionCode;
  }

  lemma TickWakes(cfg: Config, st: Tx, env: Env)
    ensures Woken(st, Tick(cfg, st, env).tx)
  {
    hide InactivityTick, AckTimerTick, CheckState, Maintain;
    var b := AckTimerTick(InactivityTick(st));
    TimersWake(st);
    CheckWakes(cfg, b, env);
    MaintainWakes(cfg, TickState(cfg, st, env), env.bufOk);
  }

  // How sending data may change the state.
  ghost predicate Fed(st: Tx, t: Tx) {
    && t.cap == st.cap && t.fsize == st.fsize && st.foffs <= t.foffs && t.reliable == st.reliable && t.keep == st.keep
    && t.srcLen == st.srcLen && t.dstLen == st.dstLen && t.phase == st.phase && t.com == st.com
    && t.fdOpen == st.fdOpen && t.inactTimer == st.inactTimer && t.ackTimer == st.ackTimer
    && t.flags == st.flags.(fdNakPending := t.flags.fdNakPending) && t.source == st.source
    && t.data.sub == st.data.sub && t.data.finFs == st.data.finFs && t.data.finDc == st.data.finDc
    && t.data.peerCc == st.data.peerCc && t.data.acknak == st.data.acknak
    && (t.Ok() ==> st.Ok()) && (!st.Ok() ==> t.status == st.status)
  }

  lemma NewDataFeeds(cfg: Config, st: Tx, src: seq<uint8>, env: Env)
    ensures var (t, sent) := SendNewData(cfg, st, src, env);
            Fed(st, t) && t.chunks == st.chunks && (forall p :: p in sent ==> p.pdu.FileData?)
            && (st.data.sub != DataNormal ==> t == st)
            && (Positioned(st) && ((WholeReads(cfg, env) && st.fsize == |src|) || t.Ok()) ==> Positioned(t))
            && (Placed(st, src) && (WholeReads(cfg, env) || t.Ok()) ==> Placed(t, src))
            && (NR.NotBehind(st) ==> NR.NotBehind(t))
  {
    hide SendFileData;
    if st.data.sub == DataNormal && st.foffs < st.fsize {
      SendMoves(cfg, st, src, st.foffs, st.fsize - st.foffs, true, env);
    }
  }

  ghost predicate Served(s: seq<Chunk>, t: seq<Chunk>) {
    t == s || (s != [] && exists n: nat :: t == RemoveFromFirst(s, n))
  }

  lemma RequestsFeed(cfg: Config, st: Tx, src: seq<uint8>, env: Env)
    ensures var (t, sent) := TickNak(cfg, st, src, env);
            Fed(st, t) && t.status == st.status && t.foffs == st.foffs && t.crc == st.crc
            && (forall p :: p in sent ==> p.pdu.FileData?)
            && Served(st.chunks, t.chunks)
            && (Placed(st, src) && WholeReads(cfg, env) ==> Placed(t, src))
            && (NR.NotBehind(st) ==> NR.NotBehind(t))
  {
    hide SendFileData, RemoveFromFirst;
    if st.flags.fdNakPending && st.chunks != [] {
      var c := st.chunks[0];
      SendMoves(cfg, st, src, c.offset, c.size, false, env);
      var r := SendFileData(cfg, st, src, c.offset, c.size, false, env);
    }
  }

  lemma RequestsPosition(cfg: Config, st: Tx, src: seq<uint8>, env: Env)
    requires Ranged(st, src, |src|) && Positioned(st) && WholeReads(cfg, env)
    ensures Positioned(TickNak(cfg, st, src, env).0)
  {
    hide SendFileData, RemoveFromFirst, WellFormed;
    if st.flags.fdNakPending && st.chunks != [] {
      FirstInFile(st, src, |src|);
      SendMoves(cfg, st, src, st.chunks[0].offset, st.chunks[0].size, false, env);
    }
  }

  lemma StepKeepsRoom(cfg: Config, st: Tx, src: seq<uint8>, e: Event)
    requires 0 < st.cap
    ensures var t := Step(cfg, st, src, e).0;
            && t.cap == st.cap && t.fsize == st.fsize && t.reliable == st.reliable && t.keep == st.keep
            && st.foffs <= t.foffs
            && (t.Ok() ==> st.Ok()) && (!st.Ok() ==> t.status == st.status)
  {
    hide Recv, Tick, TickNak, SendNewData;
    match e {
      case Arrive(pkt) => RecvNotes(cfg, st, pkt);
      case Wakeup(env) => TickWakes(cfg, st, env);
      case Requests(env) => RequestsFeed(cfg, st, src, env);
      case NewData(env) => NewDataFeeds(cfg, st, src, env);
      case _ =>
    }
  }

  // ---------- no request ends behind what bounds the list at the start ----------

  predicate ValidEvent(fsize: nat, e: Event) { e.Arrive? ==> Acceptable(fsize, e.pkt.pdu) }

  lemma {:induction false} NakRanged(st: Tx, segs: seq<Seg>, src: seq<uint8>, lim: nat)
    requires 0 < st.cap && Ranged(st, src, lim) && AcceptableSegs(st.fsize, segs)
    ensures Ranged(RecvNak(st, segs), src, lim)
    decreases |segs|
  {
    if segs != [] {
      SegRanged(st, segs[0], src, lim);
      hide RecvSeg, WellFormed;
      NakRanged(RecvSeg(st, segs[0]), segs[1..], src, lim);
    }
  }

  lemma SegRanged(st: Tx, sr: Seg, src: seq<uint8>, lim: nat)
    requires 0 < st.cap && Ranged(st, src, lim) && (DataRequest(st.fsize, sr) ==> sr.start < sr.end)
    ensures Ranged(RecvSeg(st, sr), src, lim) && RecvSeg(st, sr).fsize == st.fsize && 0 < RecvSeg(st, sr).cap
  {
    hide Add, Separated;
    if DataRequest(st.fsize, sr) {
      var c := Chunk(sr.start, sr.end - sr.start);
      AddKeepsInvariant(st.cap, st.chunks, c);
      AddStaysBelow(st.cap, st.chunks, c, lim);
    }
  }

  // With any outcome of the reads.
  lemma StepRanged(cfg: Config, st: Tx, src: seq<uint8>, e: Event, lim: nat)
    requires 0 < st.cap && Ranged(st, src, lim) && ValidEvent(|src|, e)
    ensures Ranged(Step(cfg, st, src, e).0, src, lim)
  {
    hide Recv, Tick, TickNak, SendNewData, RecvNak, WellFormed, RemoveFromFirst;
    match e {
      case Arrive(pkt) =>
        RecvNotes(cfg, st, pkt);
        if pkt.pdu.Nak? {
          NakRanged(st, pkt.pdu.segs, src, lim);
          NakNotes(st, pkt.pdu.segs);
        }
      case Wakeup(env) => TickWakes(cfg, st, env);
      case Requests(env) =>
        RequestsFeed(cfg, st, src, env);
        var t := TickNak(cfg, st, src, env).0;
        if t.chunks != st.chunks {
          var n: nat :| t.chunks == RemoveFromFirst(st.chunks, n);
          TrimKeeps(st.cap, st.chunks, n, lim);
        }
      case NewData(env) => NewDataFeeds(cfg, st, src, env);
      case _ =>
    }
  }

  // The position never falls behind what the transaction believes.
  lemma StepNotBehind(cfg: Config, st: Tx, src: seq<uint8>, e: Event)
    requires 0 < st.cap && NR.NotBehind(st)
    ensures NR.NotBehind(Step(cfg, st, src, e).0)
  {
    hide Recv, Tick, TickNak, SendNewData;
    match e {
      case Arrive(pkt) => RecvNotes(cfg, st, pkt);
      case Wakeup(env) => TickWakes(cfg, st, env);
      case Requests(env) => RequestsFeed(cfg, st, src, env);
      case NewData(env) => NewDataFeeds(cfg, st, src, env);
      case _ =>
    }
  }

  // Only a read that is cut short before the end of the file parts it from the
  // transaction: a failed read of new data is noted as an error, one that serves a
  // request is not.
  lemma StepPositioned(cfg: Config, st: Tx, src: seq<uint8>, e: Event)
    requires 0 < st.cap && Placed(st, src)
    requires e.Requests? ==> WholeReads(cfg, e.env)
    ensures var t := Step(cfg, st, src, e).0;
            Placed(t, src) || (e.NewData? && st.data.sub == DataNormal && !WholeReads(cfg, e.env) && !t.Ok())
  {
    hide Recv, Tick, TickNak, SendNewData;
    match e {
      case Arrive(pkt) => RecvNotes(cfg, st, pkt);
      case Wakeup(env) => TickWakes(cfg, st, env);
      case Requests(env) => RequestsFeed(cfg, st, src, env);
      case NewData(env) => NewDataFeeds(cfg, st, src, env);
      case _ =>
    }
  }

  // ---------- what is complete, and when the source goes ----------

  // Complete means: all sent, and in class 2 the EOF acknowledged and a FIN received.
  ghost predicate Completing(st: Tx) {
    && (st.data.sub == DataEof ==> st.fsize <= st.foffs)
    && (st.com.isComplete ==>
          && 2 <= st.data.sub.Rank() && st.fsize <= st.foffs
          && (st.reliable ==> st.flags.eofAckRecv && st.flags.finCount != 0))
    && (st.source.Gone() ==> Disposable(st))
  }

  // What giving up the source stands for.
  ghost predicate Disposable(st: Tx) {
    && !st.keep && st.com.isComplete && st.data.sub == Complete
    && (st.reliable ==> st.data.finFs == FS_RETAINED && st.data.finDc == DC_COMPLETE)
  }

  // The checksum follows the data sent, and is that of the source when an EOF is due.
  ghost predicate Summing(st: Tx, src: seq<uint8>) {
    && st.fsize == |src|
    && (st.data.sub == DataNormal ==>
          st.foffs <= |src| && st.crc == Digest(START, src[..st.foffs]) && !st.flags.sendEof)
    && (st.data.sub == DataEof || st.flags.sendEof ==> st.crc.result == Checksum(src))
  }

  ghost predicate Inv(st: Tx, src: seq<uint8>, sums: bool) { Completing(st) && (sums ==> Summing(st, src)) }

  // What a received PDU leaves alone is all that matters here.
  lemma NotedInv(st: Tx, t: Tx, src: seq<uint8>, sums: bool)
    requires Inv(st, src, sums) && Noted(st, t)
    ensures Inv(t, src, sums) && t.source == st.source
  {
    hide Digest, Checksum;
  }

  // The timers leave alone what matters here.
  lemma SameFileInv(st: Tx, t: Tx, src: seq<uint8>, sums: bool)
    requires Inv(st, src, sums) && SameFile(st, t)
    ensures Inv(t, src, sums)
  {
    hide Digest, Checksum;
  }

  // Between deciding the next sub-state and entering it.
  ghost predicate Decided(st: Tx, next: Sub, src: seq<uint8>, sums: bool) {
    && (sums ==> Summing(st, src))
    && (st.data.sub == DataEof || next == DataEof ==> st.fsize <= st.foffs)
    && (next == DataEof ==> st.data.sub == DataNormal || st.data.sub == DataEof)
    && (st.com.isComplete ==>
          && 2 <= next.Rank() && st.fsize <= st.foffs
          && (st.reliable ==> st.flags.eofAckRecv && st.flags.finCount != 0))
    && (st.source.Gone() ==> Disposable(st.(data := st.data.(sub := next))))
  }

  lemma Eof1Decides(st: Tx, src: seq<uint8>, sums: bool)
    requires Inv(st, src, sums) && st.data.sub == DataEof && !st.reliable
    ensures var (t, next) := CheckDataEof1(st);
            Decided(t, next, src, sums) && t.data.sub == DataEof && t.source == st.source && next != DataNormal
  {
    hide Digest, Checksum;
  }

  lemma Eof2Decides(cfg: Config, st: Tx, src: seq<uint8>, sums: bool)
    requires Inv(st, src, sums) && st.data.sub == DataEof
    ensures var (t, next) := CheckDataEof2(cfg, st);
            Decided(t, next, src, sums) && t.data.sub == DataEof && t.source == st.source && next != DataNormal
  {
    hide Digest, Checksum;
  }

  lemma StoreDecides(st: Tx, env: Env, src: seq<uint8>, sums: bool)
    requires Inv(st, src, sums) && st.data.sub == FileStore
    ensures var t := HandleFileRetention(st, env);
            && Decided(t, Complete, src, sums) && t.data.sub == FileStore
            && (t.source.Gone() && !st.source.Gone() ==> st.Ok() && st.com.isComplete)
  {
    hide Digest, Checksum;
  }

  // Staying where it is.
  lemma StayDecides(st: Tx, next: Sub, src: seq<uint8>, sums: bool)
    requires Inv(st, src, sums)
    requires next == st.data.sub || (next == FileStore && st.data.sub.Rank() < 2) ||
             (next == DataEof && st.data.sub == DataNormal && st.fsize <= st.foffs)
    ensures Decided(st, next, src, sums)
  {
    hide Digest, Checksum;
  }

  lemma CheckDecides(cfg: Config, st: Tx, env: Env, src: seq<uint8>, sums: bool)
    requires Inv(st, src, sums)
    ensures var (t, next) := Check(cfg, st, env);
            && Decided(t, next, src, sums) && t.data.sub == st.data.sub
            && (next == DataNormal ==> st.data.sub == DataNormal)
            && (t.source.Gone() && !st.source.Gone() ==> st.data.sub == FileStore && st.Ok() && st.com.isComplete)
  {
    hide Inv, Decided, CheckDataEof1, CheckDataEof2, HandleFileRetention;
    match st.data.sub {
      case DataNormal =>
        StayDecides(st, CheckDataNormal(st).1, src, sums);
      case DataEof =>
        if !st.Ok() || st.flags.sendEof {
          StayDecides(st, if st.Ok() then DataEof else FileStore, src, sums);
        } else if !st.reliable {
          Eof1Decides(st, src, sums);
        } else {
          Eof2Decides(cfg, st, src, sums);
        }
      case FileStore =>
        StoreDecides(st, env, src, sums);
      case Complete =>
        StayDecides(st, Complete, src, sums);
    }
  }

  // The register holds the checksum of everything sent, which is the whole file.
  lemma EnterKeeps(cfg: Config, st: Tx, next: Sub, src: seq<uint8>, sums: bool)
    requires Decided(st, next, src, sums) && next != st.data.sub && next != DataNormal
    ensures Inv(Enter(cfg, st, next), src, sums) && Enter(cfg, st, next).source == st.source
  {
    hide Digest, Checksum, Finalize;
    if next == DataEof {
      assert src[..|src|] == src;
      WholeChecksum(src);
    }
  }

  lemma CheckStateKeeps(cfg: Config, st: Tx, env: Env, src: seq<uint8>, sums: bool)
    requires Inv(st, src, sums)
    ensures var t := CheckState(cfg, st, env);
            && Inv(t, src, sums)
            && (t.source.Gone() && !st.source.Gone() ==> st.data.sub == FileStore && st.Ok() && st.com.isComplete)
  {
    hide Check, Enter, Digest, Checksum;
    var (a, next) := Check(cfg, st, env);
    CheckDecides(cfg, st, env, src, sums);
    if next != st.data.sub {
      EnterKeeps(cfg, a, next, src, sums);
    }
  }

  // An EOF tells the receiver the size and the checksum of the source, if it
  // reports no error or no read ever came short.
  predicate TrueEof(p: Pdu, src: seq<uint8>, always: bool) {
    p.Eof? && (always || !IsError(p.cc)) ==> p.size == |src| && p.crc == Checksum(src)
  }

  lemma MaintainKeeps(cfg: Config, st: Tx, bufOk: bool, src: seq<uint8>, sums: bool)
    requires Inv(st, src, sums)
    ensures var (t, sent) := Maintain(cfg, st, bufOk);
            && Inv(t, src, sums)
            && (forall p :: p in sent && sums ==> TrueEof(p.pdu, src, true))
            && (forall p :: p in sent && p.pdu.Eof? && !IsError(p.pdu.cc) ==> st.Ok())
  {
    hide Digest, Checksum;
  }

  lemma TickKeeps(cfg: Config, st: Tx, env: Env, src: seq<uint8>, sums: bool)
    requires Inv(st, src, sums)
    ensures var r := Tick(cfg, st, env);
            && Inv(r.tx, src, sums)
            && (forall p :: p in r.sent && sums ==> TrueEof(p.pdu, src, true))
            && (forall p :: p in r.sent && p.pdu.Eof? && !IsError(p.pdu.cc) ==> r.tx.Ok())
            && (r.tx.source.Gone() && !st.source.Gone() ==> st.data.sub == FileStore && st.Ok() && st.com.isComplete)
  {
    hide CheckState, Maintain, InactivityTick, AckTimerTick, Inv, TrueEof;
    TimersWake(st);
    var b := AckTimerTick(InactivityTick(st));
    SameFileInv(st, InactivityTick(st), src, sums);
    SameFileInv(st, b, src, sums);
    CheckStateKeeps(cfg, b, env, src, sums);
    MaintainKeeps(cfg, TickState(cfg, st, env), env.bufOk, src, sums);
    MaintainWakes(cfg, TickState(cfg, st, env), env.bufOk);
  }

  // New data are digested as they are sent.
  lemma NewDataKeeps(cfg: Config, st: Tx, src: seq<uint8>, env: Env, sums: bool)
    requires Inv(st, src, sums) && (sums ==> Placed(st, src))
    ensures Inv(SendNewData(cfg, st, src, env).0, src, sums)
  {
    hide SendFileData, Digest, Checksum;
    if st.data.sub == DataNormal && st.foffs < st.fsize {
      SendMoves(cfg, st, src, st.foffs, st.fsize - st.foffs, true, env);
      if sums {
        SendDigests(cfg, st, src, env);
      }
    }
  }

  lemma RequestsKeep(cfg: Config, st: Tx, src: seq<uint8>, env: Env, sums: bool)
    requires Inv(st, src, sums)
    ensures Inv(TickNak(cfg, st, src, env).0, src, sums)
  {
    hide TickNak, Digest, Checksum;
    RequestsFeed(cfg, st, src, env);
  }

  lemma OthersKeep(cfg: Config, st: Tx, src: seq<uint8>, sums: bool)
    requires Inv(st, src, sums)
    ensures Inv(Cancel(st), src, sums) && Inv(Finish(cfg, st), src, sums)
  {
    hide Digest, Checksum;
  }

  lemma StepInv(cfg: Config, st: Tx, src: seq<uint8>, e: Event, sums: bool)
    requires 0 < st.cap && Inv(st, src, sums) && (sums && e.NewData? ==> Placed(st, src))
    ensures var (t, sent) := Step(cfg, st, src, e);
            && Inv(t, src, sums)
            && (forall p :: p in sent && sums ==> TrueEof(p.pdu, src, true))
            && (forall p :: p in sent && p.pdu.Eof? && !IsError(p.pdu.cc) ==> t.Ok())
            && (t.source.Gone() && !st.source.Gone() ==>
                  e.Wakeup? && st.data.sub == FileStore && st.Ok() && st.com.isComplete)
  {
    hide Recv, Tick, TickNak, SendNewData, Inv;
    match e {
      case Arrive(pkt) =>
        RecvNotes(cfg, st, pkt);
        NotedInv(st, Recv(cfg, st, pkt), src, sums);
      case Wakeup(env) => TickKeeps(cfg, st, env, src, sums);
      case Requests(env) =>
        RequestsFeed(cfg, st, src, env);
        RequestsKeep(cfg, st, src, env, sums);
      case NewData(env) =>
        NewDataFeeds(cfg, st, src, env);
        NewDataKeeps(cfg, st, src, env, sums);
      case _ => OthersKeep(cfg, st, src, sums);
    }
  }

  // ---------- runs ----------

  function Run(cfg: Config, st: Tx, src: seq<uint8>, es: seq<Event>): (r: (Tx, seq<Packet>))
    requires 0 < st.cap
    decreases |es|
  {
    if es == [] then (st, [])
    else
      StepKeepsRoom(cfg, st, src, es[0]);
      var (a, sent) := Step(cfg, st, src, es[0]);
      var (b, rest) := Run(cfg, a, src, es[1..]);
      (b, sent + rest)
  }

  // Whatever list a sender was handed, it leaves one that another can use.
  lemma {:induction false} RunRanged(cfg: Config, st: Tx, src: seq<uint8>, es: seq<Event>, lim: nat)
    requires 0 < st.cap && Ranged(st, src, lim) && forall k :: 0 <= k < |es| ==> ValidEvent(|src|, es[k])
    ensures Ranged(Run(cfg, st, src, es).0, src, lim)
    decreases |es|
  {
    if es != [] {
      hide Step, Ranged;
      StepKeepsRoom(cfg, st, src, es[0]);
      StepRanged(cfg, st, src, es[0], lim);
      RunRanged(cfg, Step(cfg, st, src, es[0]).0, src, es[1..], lim);
    }
  }

  // Any PDUs, any outcome of any call.
  lemma {:induction false} RunCompletes(cfg: Config, st: Tx, src: seq<uint8>, es: seq<Event>)
    requires 0 < st.cap && Completing(st)
    ensures Completing(Run(cfg, st, src, es).0) && Run(cfg, st, src, es).0.fsize == st.fsize
    decreases |es|
  {
    if es != [] {
      hide Step, Completing;
      StepKeepsRoom(cfg, st, src, es[0]);
      StepInv(cfg, st, src, es[0], false);
      RunCompletes(cfg, Step(cfg, st, src, es[0]).0, src, es[1..]);
    }
  }

  // In every run of a sender, in either class, with any PDUs and any outcome of the
  // reads: if the source is given up, it was not to be kept, all of it was sent, and
  // in class 2 the EOF was acknowledged and a FIN said that the file is complete
  // and retained.
  lemma SenderSafety(cfg: Config, class2: bool, keep: bool, cmdTx: bool, list: Handed, stale: Status,
                     srcLen: nat, dstLen: nat, src: seq<uint8>, es: seq<Event>)
    requires list.Proper()
    ensures var start := Start(cfg, class2, keep, cmdTx, |src|, list, stale, srcLen, dstLen);
            var t := Run(cfg, start, src, es).0;
            t.source.Gone() ==>
              && !t.keep && |src| <= t.foffs
              && (t.reliable ==> t.flags.eofAckRecv && t.flags.finCount != 0 &&
                                 t.data.finFs == FS_RETAINED && t.data.finDc == DC_COMPLETE)
  {
    hide Run;
    RunCompletes(cfg, Start(cfg, class2, keep, cmdTx, |src|, list, stale, srcLen, dstLen), src, es);
  }

  // The step that gives up the source is a wakeup of a transaction without error.
  lemma DeletedWithoutError(cfg: Config, st: Tx, src: seq<uint8>, e: Event)
    requires 0 < st.cap && Completing(st)
    requires Step(cfg, st, src, e).0.source.Gone() && !st.source.Gone()
    ensures e.Wakeup? && st.data.sub == FileStore && st.Ok() && st.com.isComplete
    ensures Disposable(Step(cfg, st, src, e).0)
  {
    hide Step;
    StepInv(cfg, st, src, e, false);
  }

  // ---------- the EOF ----------

  // Reads that serve requests deliver all or nothing; for `always`, so do those of
  // new data.
  predicate Reading(cfg: Config, e: Event, always: bool) {
    e.Requests? || (always && e.NewData?) ==> WholeReads(cfg, e.env)
  }

  ghost predicate Telling(st: Tx, src: seq<uint8>, always: bool) {
    Ranged(st, src, U32_MAX) && Completing(st) && (always || st.Ok() ==> Placed(st, src) && Summing(st, src))
  }

  lemma StepTells(cfg: Config, st: Tx, src: seq<uint8>, e: Event, always: bool)
    requires 0 < st.cap && Telling(st, src, always) && ValidEvent(|src|, e) && Reading(cfg, e, always)
    ensures var (t, sent) := Step(cfg, st, src, e);
            Telling(t, src, always) && forall p :: p in sent ==> TrueEof(p.pdu, src, always)
  {
    hide Step, Summing, Completing, Ranged;
    var t := Step(cfg, st, src, e).0;
    StepKeepsRoom(cfg, st, src, e);
    StepRanged(cfg, st, src, e, U32_MAX);
    StepInv(cfg, st, src, e, always || t.Ok());
    if always || t.Ok() {
      StepPositioned(cfg, st, src, e);
    }
  }

  lemma {:induction false} RunTells(cfg: Config, st: Tx, src: seq<uint8>, es: seq<Event>, always: bool)
    requires 0 < st.cap && Telling(st, src, always)
    requires forall k :: 0 <= k < |es| ==> ValidEvent(|src|, es[k]) && Reading(cfg, es[k], always)
    ensures forall p :: p in Run(cfg, st, src, es).1 ==> TrueEof(p.pdu, src, always)
    decreases |es|
  {
    if es != [] {
      hide Step, Telling, TrueEof;
      StepKeepsRoom(cfg, st, src, es[0]);
      StepTells(cfg, st, src, es[0], always);
      RunTells(cfg, Step(cfg, st, src, es[0]).0, src, es[1..], always);
    }
  }

  // In every run in which no request is answered by a read that comes short: every
  // EOF without an error names the size and the checksum of the source, in whatever
  // pieces the data went out and whatever was sent again in between; and if no read
  // of new data came short either, so does every other EOF.
  lemma EofTellsTruth(cfg: Config, class2: bool, keep: bool, cmdTx: bool, list: Handed, stale: Status,
                      srcLen: nat, dstLen: nat, src: seq<uint8>, es: seq<Event>, always: bool)
    requires list.Proper() && |src| <= U32_MAX
    requires forall k :: 0 <= k < |es| ==> ValidEvent(|src|, es[k]) && Reading(cfg, es[k], always)
    ensures var start := Start(cfg, class2, keep, cmdTx, |src|, list, stale, srcLen, dstLen);
            forall p :: p in Run(cfg, start, src, es).1 ==> TrueEof(p.pdu, src, always)
  {
    hide Run, TrueEof;
    assert src[..0] == [];
    RunTells(cfg, Start(cfg, class2, keep, cmdTx, |src|, list, stale, srcLen, dstLen), src, es, always);
  }

  // ---------- what a FIN is trusted with ----------

  // The source is given up, or about to be, only on a claim of retention.
  ghost predicate Trusting(st: Tx, kept: bool) {
    && st.reliable
    && (st.source.Gone() ==> kept)
    && (st.data.finFs == FS_RETAINED && st.data.finDc == DC_COMPLETE ==> kept)
  }

  lemma RecvTrusts(cfg: Config, st: Tx, pkt: Packet, kept: bool)
    requires 0 < st.cap && Trusting(st, kept) && (ClaimsRetained(pkt.pdu) ==> kept)
    ensures Trusting(Recv(cfg, st, pkt), kept)
  {
    hide Recv, HandlerOf, RecvNak;
    RecvRuns(cfg, st, pkt);
    if early :| Recv(cfg, st, pkt) == ArmInact(cfg, HandlerOf(cfg, st, pkt.pdu, early)) {
      HandlerTrusts(cfg, st, pkt.pdu, early, kept);
    }
  }

  lemma HandlerTrusts(cfg: Config, st: Tx, p: Pdu, early: bool, kept: bool)
    requires 0 < st.cap && Trusting(st, kept) && (ClaimsRetained(p) ==> kept)
    ensures Trusting(HandlerOf(cfg, st, p, early), kept)
  {
    hide RecvNak;
    if p.Nak? {
      NakNotes(st, p.segs);
    }
  }

  lemma TickTrusts(cfg: Config, st: Tx, env: Env, kept: bool)
    requires Trusting(st, kept)
    ensures Trusting(Tick(cfg, st, env).tx, kept)
  {
    hide InactivityTick, AckTimerTick, CheckState, Maintain;
    TimersWake(st);
    CheckTrusts(cfg, AckTimerTick(InactivityTick(st)), env, kept);
    MaintainWakes(cfg, TickState(cfg, st, env), env.bufOk);
  }

  lemma CheckTrusts(cfg: Config, st: Tx, env: Env, kept: bool)
    requires Trusting(st, kept)
    ensures Trusting(CheckState(cfg, st, env), kept)
  {
    hide Finalize, IsError, HandleFileRetention, Finish;
    RetentionTrusts(st, env, kept);
    var (a, next) := Check(cfg, st, env);
    assert Trusting(a, kept);
    hide Check;
    EnterTrusts(cfg, a, next, kept);
  }

  lemma EnterTrusts(cfg: Config, st: Tx, next: Sub, kept: bool)
    requires Trusting(st, kept)
    ensures Trusting(Enter(cfg, st, next), kept)
  {
    hide Finalize;
  }

  lemma RetentionTrusts(st: Tx, env: Env, kept: bool)
    requires Trusting(st, kept)
    ensures Trusting(HandleFileRetention(st, env), kept)
  {
    hide IsError;
  }

  // In class 2, whatever happens: the source goes only after a FIN that claims
  // retention has come.
  lemma StepTrusts(cfg: Config, st: Tx, src: seq<uint8>, e: Event, kept: bool)
    requires 0 < st.cap && Trusting(st, kept) && (e.Arrive? && ClaimsRetained(e.pkt.pdu) ==> kept)
    ensures Trusting(Step(cfg, st, src, e).0, kept)
  {
    hide Recv, Tick, TickNak, SendNewData;
    match e {
      case Arrive(pkt) => RecvTrusts(cfg, st, pkt, kept);
      case Wakeup(env) => TickTrusts(cfg, st, env, kept);
      case Requests(env) => RequestsFeed(cfg, st, src, env);
      case NewData(env) => NewDataFeeds(cfg, st, src, env);
      case _ =>
    }
  }

  // ---------- error freeze ----------

  lemma StepSticks(cfg: Config, st: Tx, src: seq<uint8>, e: Event)
    requires 0 < st.cap && !st.Ok()
    ensures Step(cfg, st, src, e).0.status == st.status
    ensures Step(cfg, st, src, e).0.source.Gone() ==> st.source.Gone()
  {
    hide Recv, Tick, TickNak, SendNewData;
    match e {
      case Arrive(pkt) => RecvNotes(cfg, st, pkt);
      case Wakeup(env) => TickSticks(cfg, st, env);
      case Requests(env) => RequestsFeed(cfg, st, src, env);
      case NewData(env) => NewDataFeeds(cfg, st, src, env);
      case _ =>
    }
  }

  lemma TickSticks(cfg: Config, st: Tx, env: Env)
    requires !st.Ok()
    ensures Tick(cfg, st, env).tx.status == st.status
    ensures Tick(cfg, st, env).tx.source.Gone() ==> st.source.Gone()
  {
    hide CheckState, Maintain, InactivityTick, AckTimerTick;
    TickWakes(cfg, st, env);
    TimersWake(st);
    CheckSticks(cfg, AckTimerTick(InactivityTick(st)), env);
    MaintainWakes(cfg, TickState(cfg, st, env), env.bufOk);
  }

  lemma CheckSticks(cfg: Config, st: Tx, env: Env)
    requires !st.Ok()
    ensures CheckState(cfg, st, env).source.Gone() ==> st.source.Gone()
  {
    hide Finalize;
  }

  // From the first error on the status stays what it is, and the source is not given up.
  lemma {:induction false} ErrorFreeze(cfg: Config, st: Tx, src: seq<uint8>, es: seq<Event>)
    requires 0 < st.cap && !st.Ok()
    ensures Run(cfg, st, src, es).0.status == st.status
    ensures Run(cfg, st, src, es).0.source.Gone() ==> st.source.Gone()
    decreases |es|
  {
    if es != [] {
      hide Step;
      StepSticks(cfg, st, src, es[0]);
      StepKeepsRoom(cfg, st, src, es[0]);
      ErrorFreeze(cfg, Step(cfg, st, src, es[0]).0, src, es[1..]);
    }
  }

  // ---------- starting ----------

  // A pending transaction is put to work exactly if its status is clean, there is a
  // chunk list, and the source file can be opened and measured; else it is recycled
  // with an error, and no file stays open. Its list is as it was handed out.
  lemma StartsIff(cfg: Config, class2: bool, keep: bool, cmdTx: bool, stale: Status, srcLen: nat, dstLen: nat,
                  o: Opening)
    ensures var (t, started) := Setup(cfg, Pending(class2, keep, cmdTx, stale, srcLen, dstLen), o);
            && (started <==>
                  !IsError(stale) && o.list.Some? && !o.alreadyOpen && o.openOk && o.seekEnd.Some? && o.seekStartOk)
            && (started ==> t == Start(cfg, class2, keep, cmdTx, o.seekEnd.value, o.list.value, stale, srcLen, dstLen))
            && (!started ==> !t.Ok() && !t.fdOpen
                             && t.status == if IsError(stale) then stale
                                            else if o.list.None? then ST_NO_RESOURCE else ST_FILESTORE_REJECTION)
  {
  }
}
