/** What else holds in every run of both ends: every packet survives the wire, and no receiver gets stuck. */
module LinkRuns {
  import opened Cfdp
  import opened Crc
  import opened ChunkSpec
  import opened Link
  import Codec
  import Wire
  import Rx = RxSpec
  import RR = RxRuns
  import RT = RxTermination
  import RF = RxFile
  import Tx = TxSpec
  import TR = TxReads
  import TxRuns
  import opened EndToEnd

  // ---------- what each end says ----------

  predicate FromSender(p: Pdu, size: nat) {
    match p
    case Metadata(_, _, srcLen, dstLen) => srcLen < 256 && dstLen < 256
    case FileData(_, _) => true
    case Eof(cc, crc, n) => cc < 16 && crc < M && n == size
    case Ack(directive, cc, status) => directive < 16 && cc < 16 && status < 4
    case _ => false
  }

  predicate FromReceiver(p: Pdu) {
    match p
    case Fin(cc, dc, fs) => cc < 16 && dc < 2 && fs < 4
    case Ack(directive, cc, status) => directive < 16 && cc < 16 && status < 4
    case Nak(segs) => |segs| <= Codec.MAX_SEGMENTS
    case _ => false
  }

  // Condition codes of the other end are passed back as they came.
  ghost predicate Speaking(s: System, src: seq<uint8>) {
    && s.tx.srcLen < 256 && s.tx.dstLen < 256 && s.tx.data.peerCc < 16 && s.rx.data.peerCc < 16
    && s.tx.fsize == |src|
    && (forall p :: p in s.toRx ==> FromSender(p.pdu, |src|))
    && (forall p :: p in s.toTx ==> FromReceiver(p.pdu))
  }

  // ---------- the receiver ----------

  lemma RxRecvPeer(cfg: Config, st: Rx.Rx, pkt: Packet, env: Rx.Env)
    requires 0 < st.cap && Rx.Acceptable(pkt.pdu)
    ensures var cc := Rx.Recv(cfg, st, pkt, env).data.peerCc;
            cc == st.data.peerCc || (pkt.pdu.Eof? && cc == pkt.pdu.cc)
  {
    hide Rx.ProcessFd, Rx.RecvEof;
    if pkt.pdu.FileData? {
      DataKeepsPeer(st, pkt.pdu.offset, pkt.pdu.data, env);
    } else if pkt.pdu.Eof? {
      EofPeer(cfg, st, pkt.pdu.cc, pkt.pdu.crc, pkt.pdu.size);
    }
  }

  lemma DataKeepsPeer(st: Rx.Rx, off: nat, data: seq<uint8>, env: Rx.Env)
    requires 0 < st.cap
    ensures Rx.ProcessFd(st, off, data, env).data.peerCc == st.data.peerCc
  {
    hide Add, WriteAt;
  }

  lemma EofPeer(cfg: Config, st: Rx.Rx, cc: nat, crc: nat, size: nat)
    ensures var t := Rx.RecvEof(cfg, st, cc, crc, size);
            t.data.peerCc == st.data.peerCc || t.data.peerCc == cc
  {
  }

  lemma RxTickPeer(cfg: Config, st: Rx.Rx, env: Rx.Env)
    requires 0 < st.cap && Separated(st.chunks) && 0 < cfg.crcBlock
    ensures Rx.Tick(cfg, st, env).rx.data.peerCc == st.data.peerCc
    ensures Rx.TickState(cfg, st, env).data.peerCc == st.data.peerCc
  {
    hide Rx.CheckState, Rx.Maintain, Rx.InactivityTick, Rx.AckTimerTick, Separated;
    var b := Rx.AckTimerTick(Rx.InactivityTick(st));
    RR.TimersTimed(st);
    RR.CheckKeepsNotes(cfg, b, env);
    RR.MaintainQuiet(cfg, Rx.TickState(cfg, st, env), env.bufOk);
  }

  lemma RxSays(cfg: Config, st: Rx.Rx, bufOk: bool)
    requires 0 < st.cap && Separated(st.chunks) && cfg.maxSegments <= Codec.MAX_SEGMENTS && st.data.peerCc < 16
    ensures forall p :: p in Rx.Maintain(cfg, st, bufOk).1 ==> FromReceiver(p.pdu)
  {
    hide Separated, Rx.NakGaps, ToConditionCode;
  }

  // ---------- the sender ----------

  lemma TxSteps(cfg: Config, st: Tx.Tx, src: seq<uint8>, e: TxRuns.Event)
    requires 0 < st.cap && st.srcLen < 256 && st.dstLen < 256 && st.data.peerCc < 16
    requires e.Arrive? && e.pkt.pdu.Fin? ==> e.pkt.pdu.cc < 16
    ensures var (t, sent) := TxRuns.Step(cfg, st, src, e);
            && t.srcLen < 256 && t.dstLen < 256 && t.data.peerCc < 16 && t.fsize == st.fsize
            && forall p :: p in sent ==> FromSender(p.pdu, st.fsize)
  {
    hide Tx.Recv, Tx.Tick, Tx.TickNak, Tx.SendNewData;
    match e {
      case Arrive(pkt) =>
        TxRuns.RecvNotes(cfg, st, pkt);
        TxRecvPeer(cfg, st, pkt);
      case Wakeup(env) => TxTickSays(cfg, st, env);
      case Requests(env) => TxRuns.RequestsFeed(cfg, st, src, env);
      case NewData(env) => TxRuns.NewDataFeeds(cfg, st, src, env);
      case _ =>
    }
  }

  lemma TxRecvPeer(cfg: Config, st: Tx.Tx, pkt: Packet)
    requires 0 < st.cap && st.data.peerCc < 16 && (pkt.pdu.Fin? ==> pkt.pdu.cc < 16)
    ensures Tx.Recv(cfg, st, pkt).data.peerCc < 16
  {
    hide Tx.Recv, TxRuns.HandlerOf;
    TxRuns.RecvRuns(cfg, st, pkt);
    if early :| Tx.Recv(cfg, st, pkt) == Tx.ArmInact(cfg, TxRuns.HandlerOf(cfg, st, pkt.pdu, early)) {
      TxHandlerPeer(cfg, st, pkt.pdu, early);
    }
  }

  lemma TxHandlerPeer(cfg: Config, st: Tx.Tx, p: Pdu, early: bool)
    requires 0 < st.cap && st.data.peerCc < 16 && (p.Fin? ==> p.cc < 16)
    ensures TxRuns.HandlerOf(cfg, st, p, early).data.peerCc < 16
  {
    hide Tx.RecvNak;
    if p.Nak? {
      TxRuns.NakNotes(st, p.segs);
    }
  }

  lemma TxTickSays(cfg: Config, st: Tx.Tx, env: Tx.Env)
    requires st.srcLen < 256 && st.dstLen < 256 && st.data.peerCc < 16
    ensures var r := Tx.Tick(cfg, st, env);
            && r.tx.srcLen < 256 && r.tx.dstLen < 256 && r.tx.data.peerCc < 16 && r.tx.fsize == st.fsize
            && forall p :: p in r.sent ==> FromSender(p.pdu, st.fsize)
  {
    hide Tx.InactivityTick, Tx.AckTimerTick, Tx.CheckState, Tx.Maintain;
    var b := Tx.AckTimerTick(Tx.InactivityTick(st));
    TxRuns.TimersWake(st);
    TxRuns.CheckWakes(cfg, b, env);
    TxCheckPeer(cfg, b, env);
    TxRuns.MaintainWakes(cfg, Tx.TickState(cfg, st, env), env.bufOk);
    TxSays(cfg, Tx.TickState(cfg, st, env), env.bufOk);
  }

  lemma TxCheckPeer(cfg: Config, st: Tx.Tx, env: Tx.Env)
    ensures Tx.CheckState(cfg, st, env).data.peerCc == st.data.peerCc
  {
    hide Tx.Check, Tx.Enter;
    TxDecisionPeer(cfg, st, env);
    TxEnterPeer(cfg, Tx.Check(cfg, st, env).0, Tx.Check(cfg, st, env).1);
  }

  lemma TxDecisionPeer(cfg: Config, st: Tx.Tx, env: Tx.Env)
    ensures Tx.Check(cfg, st, env).0.data.peerCc == st.data.peerCc
  {
  }

  lemma TxEnterPeer(cfg: Config, st: Tx.Tx, next: Tx.Sub)
    ensures Tx.Enter(cfg, st, next).data.peerCc == st.data.peerCc
  {
    hide Finalize;
  }

  lemma TxSays(cfg: Config, st: Tx.Tx, bufOk: bool)
    requires st.srcLen < 256 && st.dstLen < 256 && st.data.peerCc < 16
    ensures forall p :: p in Tx.Maintain(cfg, st, bufOk).1 ==> FromSender(p.pdu, st.fsize)
  {
  }

  // ---------- both ----------

  lemma RxSpeaks(cfg: Config, src: seq<uint8>, s: System, a: Action)
    requires Works(cfg) && Defined(s, a) && Speaking(s, src) && cfg.maxSegments <= Codec.MAX_SEGMENTS && !OfSender(a)
    ensures Speaking(Next(cfg, src, s, a), src)
  {
    hide Rx.Recv, Rx.TickState, Rx.Maintain, Separated, FromSender, FromReceiver;
    match a {
      case ToReceiver(k, env) =>
        if k < |s.toRx| {
          assert s.toRx[k] in s.toRx;
          RxRecvPeer(cfg, s.rx, s.toRx[k], env);
          EofCode(s.toRx[k].pdu, |src|);
        }
      case RxWakeup(env) =>
        RxTickPeer(cfg, s.rx, env);
        RxSays(cfg, Rx.TickState(cfg, s.rx, env), env.bufOk);
      case _ =>
    }
  }

  lemma EofCode(p: Pdu, size: nat)
    requires FromSender(p, size)
    ensures p.Eof? ==> p.cc < 16
  {
  }

  lemma FinCode(p: Pdu)
    requires FromReceiver(p)
    ensures p.Fin? ==> p.cc < 16
  {
  }

  lemma StepSpeaks(cfg: Config, src: seq<uint8>, s: System, a: Action)
    requires Works(cfg) && Defined(s, a) && Speaking(s, src) && cfg.maxSegments <= Codec.MAX_SEGMENTS
    ensures Speaking(Next(cfg, src, s, a), src)
  {
    hide TxRuns.Step, WellFormed, FromSender, FromReceiver;
    if !OfSender(a) {
      RxSpeaks(cfg, src, s, a);
    } else if !(a.ToSender? && |s.toTx| <= a.k) {
      if a.ToSender? {
        assert s.toTx[a.k] in s.toTx;
        FinCode(s.toTx[a.k].pdu);
      }
      TxSteps(cfg, s.tx, src, TxEvent(s, a));
    }
  }

  lemma {:induction false} TraceSpeaks(cfg: Config, src: seq<uint8>, states: seq<System>, actions: seq<Action>, i: nat)
    requires Works(cfg) && cfg.maxSegments <= Codec.MAX_SEGMENTS && Trace(cfg, src, states, actions)
    requires Speaking(states[0], src) && i <= |actions|
    ensures Speaking(states[i], src)
  {
    hide Next, Speaking, Defined;
    if i != 0 {
      TraceSpeaks(cfg, src, states, actions, i - 1);
      StepSpeaks(cfg, src, states[i - 1], actions[i - 1]);
    }
  }

  lemma InitialSpeaks(cfg: Config, src: seq<uint8>, s: System)
    requires Initial(cfg, src, s) && s.tx.srcLen < 256 && s.tx.dstLen < 256
    ensures Speaking(s, src)
  {
  }

  // In every run, whatever the reads deliver, between ends whose file names fit
  // their length octet and whose NAKs have no more requests than a PDU structure
  // holds: every packet ever sent is one of which the other end, from the octets
  // alone, reads just that packet.
  lemma EveryPacketSurvives(cfg: Config, src: seq<uint8>, states: seq<System>, actions: seq<Action>, i: nat,
                            pkt: Packet, buf: seq<uint8>, r: Wire.Route, x: Wire.Extras)
    requires Works(cfg) && cfg.maxSegments <= Codec.MAX_SEGMENTS
    requires Trace(cfg, src, states, actions) && states != [] && Initial(cfg, src, states[0])
    requires states[0].tx.srcLen < 256 && states[0].tx.dstLen < 256
    requires |states| == |actions| + 1 && i <= |actions| && (pkt in states[i].toRx || pkt in states[i].toTx)
    requires Codec.AllTyped(x.tlvs) && |x.tlvs| <= Codec.MAX_TLV && |buf| <= 0x1_0000
    requires pkt.pdu.Metadata? ==> |x.src| == pkt.pdu.srcLen && |x.dst| == pkt.pdu.dstLen
    ensures Wire.Typed(pkt.pdu) && Wire.Fits(pkt.pdu)
    ensures Wire.Proper(pkt.pdu, x)
    ensures var (c, octets) := Wire.EncodePacket(buf, r, pkt, x);
            c.valid ==> Wire.DecodePacket(octets) == Wire.Received(r, pkt)
  {
    hide Trace, Initial, On, InOrder, NoCleanEof, Speaking, Wire.EncodePacket, Wire.DecodePacket, Wire.Typed, Wire.Fits;
    InitialInvariant(cfg, src, states[0], iset{});
    TraceInvariant(cfg, src, states, actions, i);
    InitialSpeaks(cfg, src, states[0]);
    TraceSpeaks(cfg, src, states, actions, i);
    if pkt in states[i].toRx {
      SentByTx(states[i], src, pkt);
    } else {
      SentByRx(states[i], src, pkt);
    }
    Wire.PacketSurvivesIff(buf, r, pkt, x);
  }

  lemma SentByTx(s: System, src: seq<uint8>, pkt: Packet)
    requires On(s, src, Unknown) && Speaking(s, src) && pkt in s.toRx
    ensures Wire.Typed(pkt.pdu) && Wire.Fits(pkt.pdu)
  {
    hide TR.Ranged, RF.Faithful;
    assert |src| <= U32_MAX by { RF.HasList(s.rx, src, Unknown); }
  }

  lemma SentByRx(s: System, src: seq<uint8>, pkt: Packet)
    requires On(s, src, Unknown) && Speaking(s, src) && pkt in s.toTx
    ensures Wire.Typed(pkt.pdu) && Wire.Fits(pkt.pdu)
  {
    hide TR.Ranged, RF.Faithful;
    assert |src| <= U32_MAX by { RF.HasList(s.rx, src, Unknown); }
  }

  // ---------- no receiver gets stuck ----------

  ghost predicate Moving(s: System) { RT.Ahead(s.rx) && RT.Known(s.rx) }

  lemma StepMoves(cfg: Config, src: seq<uint8>, s: System, a: Action)
    requires ValidConfig(cfg) && Defined(s, a) && On(s, src, Unknown) && Moving(s)
    ensures Moving(Next(cfg, src, s, a))
  {
    hide Rx.Recv, Rx.Tick, TxRuns.Step, WellFormed;
    assert Separated(s.rx.chunks) by { RT.ListSeparated(s.rx); }
    match a {
      case ToReceiver(k, env) =>
        if k < |s.toRx| {
          DataInside(s, src, s.toRx[k], a);
          RT.ArriveAhead(cfg, s.rx, s.toRx[k], env);
          RT.StepKnown(cfg, s.rx, RR.Arrive(s.toRx[k], env));
        }
      case RxWakeup(env) =>
        RT.TickAhead(cfg, s.rx, env);
        RT.StepKnown(cfg, s.rx, RR.Wakeup(env));
      case _ =>
    }
  }

  // While the checksum is computed, the size of the file is known.
  lemma DataInside(s: System, src: seq<uint8>, pkt: Packet, a: Action)
    requires On(s, src, Unknown) && Moving(s) && pkt in s.toRx
    ensures pkt.pdu.FileData? && s.rx.data.sub == Rx.Validate && s.rx.Ok() ==>
            pkt.pdu.offset + |pkt.pdu.data| <= s.rx.fsize
  {
    hide TR.Ranged, WellFormed;
  }

  lemma {:induction false} TraceMoves(cfg: Config, src: seq<uint8>, states: seq<System>, actions: seq<Action>, i: nat)
    requires Works(cfg) && ValidConfig(cfg) && Trace(cfg, src, states, actions)
    requires Invariant(states[0], src) && Moving(states[0]) && i <= |actions|
    ensures Moving(states[i])
  {
    hide Next, Moving, Defined, On, InOrder, NoCleanEof;
    if i != 0 {
      TraceMoves(cfg, src, states, actions, i - 1);
      TraceInvariant(cfg, src, states, actions, i - 1);
      StepMoves(cfg, src, states[i - 1], actions[i - 1]);
    }
  }

  // In every run of both ends, whatever the reads deliver, the receiver's read
  // position is never behind the end of the file while it computes the checksum: so
  // the bound of the retry limit holds.
  lemma NeverStuck(cfg: Config, src: seq<uint8>, states: seq<System>, actions: seq<Action>, i: nat)
    requires Works(cfg) && ValidConfig(cfg) && Trace(cfg, src, states, actions) && states != []
    requires Initial(cfg, src, states[0]) && |states| == |actions| + 1 && i <= |actions|
    ensures !RT.Stuck(states[i].rx)
  {
    hide Trace, On, InOrder, NoCleanEof;
    InitialInvariant(cfg, src, states[0], iset{});
    assert Moving(states[0]);
    hide Initial;
    TraceMoves(cfg, src, states, actions, i);
  }
}
