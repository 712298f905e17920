/**
 The sending transaction as the source has it: one object whose fields the steps
 update in place. Every method is proved against the function of the same step in TxSpec.
 */
module TxTransactions {
  import opened Cfdp
  import opened Crc
  import opened ChunkSpec
  import ChunkLists
  import opened TxSpec

  class TxTransaction {
    var chunks: ChunkLists.ChunkList
    const crc: Register
    var phase: Phase
    var reliable: bool
    var keep: bool
    var status: Status
    var fsize: uint32
    var foffs: nat
    var ackTimer: nat
    var inactTimer: nat
    var com: Common
    var flags: Flags
    var data: Data
    var fdOpen: bool
    var pos: nat
    var source: Source
    var srcLen: nat
    var dstLen: nat

    ghost predicate Valid()
      reads this, chunks, chunks.chunks
    {
      chunks.Valid()
    }

    ghost function Abs(): (r: Tx)
      requires Valid()
      reads this, crc, chunks, chunks.chunks
      ensures 0 < r.cap && WellFormed(r.cap, r.chunks)
    {
      Tx(phase, reliable, keep, status, fsize, foffs, ackTimer, inactTimer, crc.Abs(), chunks.maxChunks,
         chunks.Contents(), com, flags, data, fdOpen, pos, source, srcLen, dstLen)
    }

    // A transaction in the pending queue, without a chunk list; the one it has instead
    // is never used.
    constructor (class2: bool, keep: bool, cmdTx: bool, stale: Status, srcLen: nat, dstLen: nat)
      ensures Valid() && Abs() == Pending(class2, keep, cmdTx, stale, srcLen, dstLen)
      ensures fresh(chunks) && fresh(chunks.chunks) && fresh(crc)
    {
      chunks := new ChunkLists.ChunkList(1);
      crc := new Register();
      phase, reliable, this.keep, status := if class2 then S2 else S1, class2, keep, stale;
      fsize, foffs, ackTimer, inactTimer := 0, 0, 0, 0;
      com := Common(false, false, false, false, false, false);
      flags := Flags(cmdTx, false, false, 0, 0, false, false);
      data := Data(DataNormal, 0, 0, 0, 0, 0);
      fdOpen, pos, source, this.srcLen, this.dstLen := false, 0, InPlace, srcLen, dstLen;
    }

    // ---------- small helpers ----------

    method SetTxnStatus(s: Status)
      requires Valid()
      modifies this`status
      ensures Valid() && Abs() == old(Abs()).SetStatus(s)
    {
      if !IsError(status) {
        status := s;
      }
    }

    method ArmAckTimer(cfg: Config)
      requires Valid()
      modifies this`ackTimer, this`com
      ensures Valid() && Abs() == ArmAck(cfg, old(Abs()))
    {
      ackTimer := cfg.ackTicks;
      com := com.(ackArmed := true);
    }

    method ArmInactTimer(cfg: Config)
      requires Valid()
      modifies this`inactTimer
      ensures Valid() && Abs() == ArmInact(cfg, old(Abs()))
    {
      inactTimer := if phase != Hold then cfg.inactTicks else 2 * cfg.ackTicks;
    }

    // ---------- setting up ----------

    method OpenSource(o: Opening)
      requires Valid()
      modifies this`status, this`fsize, this`fdOpen, this`flags, crc
      ensures Valid() && Abs() == Init(old(Abs()), o)
    {
      hide WellFormed;
      if !IsError(status) && o.alreadyOpen {
        SetTxnStatus(ST_FILESTORE_REJECTION);
      }
      if !IsError(status) && !o.openOk {
        SetTxnStatus(ST_FILESTORE_REJECTION);
      }
      if !IsError(status) {
        if o.seekEnd == None {
          SetTxnStatus(ST_FILESTORE_REJECTION);
        } else {
          fsize := o.seekEnd.value;
        }
      }
      if !IsError(status) && !o.seekStartOk {
        SetTxnStatus(ST_FILESTORE_REJECTION);
      }
      if !IsError(status) {
        fdOpen := true;
        crc.Start();
        flags := flags.(sendMd := true);
      }
    }

    // With the list the pool hands out, entries and all, or none.
    method SetupTxTransaction(cfg: Config, list: ChunkLists.ChunkList?, o: Opening) returns (started: bool)
      requires Valid() && (list != null ==> list.Valid()) && o.list == ChunkLists.GivenOut(list)
      modifies this`chunks, this`status, this`fsize, this`fdOpen, this`flags, this`inactTimer, crc
      ensures Valid() && chunks == (if list != null then list else old(chunks))
      ensures (Abs(), started) == Setup(cfg, old(Abs()), o)
    {
      hide WellFormed, Init;
      if list == null {
        SetTxnStatus(ST_NO_RESOURCE);
      } else {
        chunks := list;
      }
      if !IsError(status) {
        OpenSource(o);
      }
      started := !IsError(status);
      if started {
        ArmInactTimer(cfg);
      }
    }

    // Reading the source file: a read may fail or come short, and then still
    // has moved the position.
    method Read(src: seq<uint8>, n: nat, limit: nat) returns (got: nat, bytes: seq<uint8>)
      modifies this`pos
      ensures got == if !fdOpen || |src| <= old(pos) then 0 else Min(Min(limit, n), |src| - old(pos))
      ensures pos == old(pos) + got
      ensures bytes == if got == 0 then [] else src[old(pos)..old(pos) + got]
    {
      got := if !fdOpen || |src| <= pos then 0 else Min(Min(limit, n), |src| - pos);
      bytes := if got == 0 then [] else src[pos..pos + got];
      pos := pos + got;
    }

    // ---------- sending file data ----------

    method ReadAndSendData(src: seq<uint8>, offs: nat, actual: nat, calcCrc: bool, env: Env)
      returns (result: SendResult, sent: seq<Packet>)
      requires Valid() && data.cachedPos == offs
      modifies this`pos, this`data, crc
      ensures Valid()
      ensures Sending(Abs(), result, sent) == ReadAndSend(old(Abs()), src, offs, actual, calcCrc, env)
    {
      hide Digest, WellFormed;
      result, sent := Failed, [];
      var got, bytes := Read(src, actual, env.read);
      if fdOpen && got == actual {
        data := data.(cachedPos := data.cachedPos + actual);
        sent := [Packet(phase != S2, FileData(offs, bytes))];
        if calcCrc {
          crc.DigestAll(bytes);
        }
        result := Sent(actual);
      }
    }

    method SendData(cfg: Config, src: seq<uint8>, offs: nat, want: nat, calcCrc: bool, env: Env)
      returns (result: SendResult, sent: seq<Packet>)
      requires Valid()
      modifies this`pos, this`data, crc
      ensures Valid()
      ensures Sending(Abs(), result, sent) == SendFileData(cfg, old(Abs()), src, offs, want, calcCrc, env)
    {
      hide ReadAndSend, WellFormed;
      if !env.bufOk {
        return NoBuffer, [];
      }
      var actual := env.room;
      if want < actual {
        actual := want;
      }
      if cfg.chunkSize < actual {
        actual := cfg.chunkSize;
      }
      if data.cachedPos != offs {
        if !fdOpen || !env.seekOk {
          return Failed, [];
        }
        pos := offs;
        data := data.(cachedPos := offs);
      }
      result, sent := ReadAndSendData(src, offs, actual, calcCrc, env);
    }

    method SubstateSendFileData(cfg: Config, src: seq<uint8>, env: Env) returns (sent: seq<Packet>)
      requires Valid()
      modifies this`pos, this`data, this`foffs, this`status, crc
      ensures Valid() && (Abs(), sent) == SendNewData(cfg, old(Abs()), src, env)
    {
      hide SendFileData;
      sent := [];
      if data.sub == DataNormal && foffs < fsize {
        var result: SendResult;
        result, sent := SendData(cfg, src, foffs, fsize - foffs, true, env);
        if result.Sent? && 0 < result.n {
          foffs := foffs + result.n;
        } else if result != NoBuffer {
          SetTxnStatus(ST_READ_FAILURE);
          sent := if result.Sent? then sent else [];
        } else {
          sent := [];
        }
      }
    }

    method ServeRequest(cfg: Config, src: seq<uint8>, env: Env) returns (sent: seq<Packet>)
      requires Valid()
      modifies this`pos, this`data, this`flags, crc, chunks, chunks.chunks
      ensures Valid() && (Abs(), sent) == TickNak(cfg, old(Abs()), src, env)
    {
      hide SendFileData, RemoveFromFirst, Separated;
      sent := [];
      if flags.fdNakPending {
        var found, c := chunks.GetFirstChunk();
        if !found {
          flags := flags.(fdNakPending := false);
        } else {
          var result: SendResult;
          result, sent := SendData(cfg, src, c.offset, c.size, false, env);
          if result.Sent? && 0 < result.n {
            chunks.RemoveFirst(result.n);
          }
        }
      }
    }

    // ---------- PDU handlers ----------

    method SubstateRecvFin(cfg: Config, cc: nat, dc: nat, fs: nat)
      requires Valid()
      modifies this`data, this`status, this`flags
      ensures Valid() && Abs() == RecvFin(cfg, old(Abs()), cc, dc, fs)
    {
      hide WellFormed;
      ghost var was := Abs();
      if flags.finCount == 0 {
        data := data.(peerCc := cc, finDc := dc, finFs := fs);
        SetTxnStatus(cc);
      }
      ghost var noted := Abs();
      assert noted == if was.flags.finCount == 0 then
                        was.(data := was.data.(peerCc := cc, finDc := dc, finFs := fs)).SetStatus(cc)
                      else was;
      var ok, n := CheckAckNakCount(cfg, flags.finCount);
      flags := flags.(finCount := n);
      if !ok {
        SetTxnStatus(ST_POS_ACK_LIMIT_REACHED);
      }
    }

    method SubstateEarlyFin(cfg: Config, cc: nat, dc: nat, fs: nat)
      requires Valid()
      modifies this`data, this`status, this`flags
      ensures Valid() && Abs() == EarlyFin(cfg, old(Abs()), cc, dc, fs)
    {
      hide RecvFin;
      SetTxnStatus(ST_EARLY_FIN);
      SubstateRecvFin(cfg, cc, dc, fs);
    }

    method SubstateEofAck(directive: nat)
      requires Valid()
      modifies this`flags
      ensures Valid() && Abs() == RecvEofAck(old(Abs()), directive)
    {
      if directive == DIR_EOF {
        flags := flags.(eofAckRecv := true);
      }
    }

    // One request of a NAK.
    method TakeSegment(sr: Seg)
      requires Valid()
      requires DataRequest(fsize, sr) ==> sr.start < sr.end
      modifies this`flags, chunks, chunks.chunks
      ensures Valid() && Abs() == RecvSeg(old(Abs()), sr)
    {
      hide Add, Separated;
      if sr.start == 0 && sr.end == 0 {
        flags := flags.(sendMd := true);
      } else if sr.start <= sr.end && sr.end <= fsize {
        chunks.ListAdd(sr.start, sr.end - sr.start);
        flags := flags.(fdNakPending := true);
      }
    }

    method SubstateNak(segs: seq<Seg>)
      requires Valid() && AcceptableSegs(fsize, segs)
      modifies this`flags, chunks, chunks.chunks
      ensures Valid() && Abs() == RecvNak(old(Abs()), segs)
    {
      hide Separated, RecvSeg;
      ghost var was := Abs();
      for i := 0 to |segs|
        invariant Valid()
        invariant RecvNak(was, segs) == RecvNak(Abs(), segs[i..])
      {
        assert segs[i..][0] == segs[i] && segs[i..][1..] == segs[i + 1..];
        TakeSegment(segs[i]);
      }
      assert segs[|segs|..] == [];
    }

    method SubstateDispatch(cfg: Config, p: Pdu)
      requires Valid() && Acceptable(fsize, p)
      modifies this, chunks, chunks.chunks
      ensures chunks == old(chunks)
      ensures Valid() && Abs() == Handle(cfg, old(Abs()), p)
    {
      hide RecvFin, EarlyFin, RecvNak, Separated;
      if !p.IsFileData() && Handled(reliable, data.sub, p.Directive()) {
        match p {
          case Fin(cc, dc, fs) =>
            if data.sub == DataNormal {
              SubstateEarlyFin(cfg, cc, dc, fs);
            } else {
              SubstateRecvFin(cfg, cc, dc, fs);
            }
          case Ack(directive, _, _) => SubstateEofAck(directive);
          case Nak(segs) => SubstateNak(segs);
          case _ =>
        }
      }
    }

    method DispatchRecv(cfg: Config, pkt: Packet)
      requires Valid() && Acceptable(fsize, pkt.pdu)
      modifies this, chunks, chunks.chunks
      ensures chunks == old(chunks)
      ensures Valid() && Abs() == Recv(cfg, old(Abs()), pkt)
    {
      hide Handle, RecvFin, Separated;
      if pkt.unacknowledged != reliable {
        if phase != Hold {
          SubstateDispatch(cfg, pkt.pdu);
        } else if pkt.pdu.Fin? {
          SubstateRecvFin(cfg, pkt.pdu.cc, pkt.pdu.dc, pkt.pdu.fs);
        }
      }
      ArmInactTimer(cfg);
    }

    // ---------- the state checks ----------

    method FileRetention(env: Env)
      requires Valid()
      modifies this`source
      ensures Valid() && Abs() == HandleFileRetention(old(Abs()), env)
    {
      var allowLocalRemove := false;
      var moveDest := None;
      if IsError(status) || !com.isComplete {
        if !flags.cmdTx && env.failDir {
          moveDest := Some(MovedToFailDir);
        }
      } else if !keep {
        if !reliable {
          allowLocalRemove := true;
        } else {
          allowLocalRemove := data.finFs == FS_RETAINED && data.finDc == DC_COMPLETE;
        }
      }
      if allowLocalRemove && env.moveDir {
        moveDest := Some(MovedToMoveDir);
      }
      if env.disposeOk {
        if moveDest.Some? {
          source := moveDest.value;
        } else if allowLocalRemove {
          source := Deleted;
        }
      }
    }

    method FinishTransaction(cfg: Config)
      requires Valid()
      modifies this`fdOpen, this`phase, this`inactTimer
      ensures Valid() && Abs() == Finish(cfg, old(Abs()))
    {
      fdOpen := false;
      phase := Hold;
      ArmInactTimer(cfg);
    }

    method CheckStateDataNormal() returns (next: Sub)
      requires Valid()
      ensures (Abs(), next) == CheckDataNormal(old(Abs()))
    {
      next := DataNormal;
      if fsize <= foffs {
        next := DataEof;
      } else if IsError(status) || flags.finCount != 0 {
        next := FileStore;
      }
    }

    method CheckStateDataEof1() returns (next: Sub)
      requires Valid()
      modifies this`data, this`com
      ensures Valid() && (Abs(), next) == CheckDataEof1(old(Abs()))
    {
      next := DataEof;
      if !com.closeReq {
        data := data.(finDc := FS_UNREPORTED);
        com := com.(isComplete := true);
        next := FileStore;
      } else if flags.finCount != 0 {
        com := com.(isComplete := true);
        next := FileStore;
      }
    }

    method CheckStateDataEof2(cfg: Config) returns (next: Sub)
      requires Valid()
      modifies this`data, this`com, this`flags, this`status
      ensures Valid() && (Abs(), next) == CheckDataEof2(cfg, old(Abs()))
    {
      next := DataEof;
      if flags.finCount != flags.finAckCount {
      } else if flags.eofAckRecv {
        if flags.finCount != 0 {
          com := com.(isComplete := true);
          next := FileStore;
        }
      } else if !com.ackArmed {
        if flags.finCount != 0 {
          next := FileStore;
        } else {
          var ok, n := CheckAckNakCount(cfg, data.acknak);
          if ok {
            data := data.(acknak := n);
            flags := flags.(sendEof := true);
          } else {
            SetTxnStatus(ST_NAK_LIMIT_REACHED);
            next := FileStore;
          }
        }
      }
    }

    method EnterState(cfg: Config, next: Sub)
      requires Valid()
      modifies this, crc
      ensures chunks == old(chunks)
      ensures Valid() && Abs() == Enter(cfg, old(Abs()), next)
    {
      hide Finish, Finalize, WellFormed;
      data := data.(sub := next);
      com := com.(ackArmed := false);
      match next {
        case DataEof =>
          data := data.(acknak := 0);
          crc.FinalizeResult();
          com := com.(crcComplete := true);
          flags := flags.(sendEof := true);
        case Complete =>
          FinishTransaction(cfg);
        case _ =>
      }
    }

    method StateCheck(cfg: Config, env: Env)
      requires Valid()
      modifies this, crc
      ensures chunks == old(chunks)
      ensures Valid() && Abs() == CheckState(cfg, old(Abs()), env)
    {
      hide CheckDataNormal, CheckDataEof1, CheckDataEof2, HandleFileRetention, Enter, Separated;
      ghost var was := Abs();
      KeepsSub(cfg, was, env);
      var next := data.sub;
      match data.sub {
        case DataNormal => next := CheckStateDataNormal();
        case DataEof =>
          if IsError(status) {
            next := FileStore;
          } else if flags.sendEof {
          } else if !reliable {
            next := CheckStateDataEof1();
          } else {
            next := CheckStateDataEof2(cfg);
          }
        case FileStore =>
          FileRetention(env);
          next := Complete;
        case Complete =>
      }
      assert (Abs(), next) == Check(cfg, was, env);
      if next != data.sub {
        EnterState(cfg, next);
      }
    }

    // ---------- a tick ----------

    method TickAckTimer()
      requires Valid()
      modifies this`ackTimer, this`com
      ensures Valid() && Abs() == AckTimerTick(old(Abs()))
    {
      if reliable && com.ackArmed {
        if ackTimer != 0 {
          ackTimer := ackTimer - 1;
        } else {
          com := com.(ackArmed := false);
        }
      }
    }

    method TickInactivity()
      requires Valid()
      modifies this`inactTimer, this`com, this`status
      ensures Valid() && Abs() == InactivityTick(old(Abs()))
    {
      if !com.inactFired && data.sub != DataNormal {
        if inactTimer != 0 {
          inactTimer := inactTimer - 1;
        } else {
          com := com.(inactFired := true);
          if phase != Hold {
            SetTxnStatus(ST_INACTIVITY_DETECTED);
          }
        }
      }
    }

    method TickMaintenance(cfg: Config, bufOk: bool) returns (sent: seq<Packet>)
      requires Valid()
      modifies this`ackTimer, this`com, this`flags
      ensures Valid() && (Abs(), sent) == Maintain(cfg, old(Abs()), bufOk)
    {
      hide ToConditionCode, Separated;
      sent := [];
      if bufOk {
        if flags.sendMd {
          sent := [Packet(phase != S2, Metadata(com.closeReq, fsize, srcLen, dstLen))];
          flags := flags.(sendMd := false);
        } else if flags.sendEof {
          sent := [Packet(phase != S2, Eof(ToConditionCode(status), crc.result, fsize))];
          flags := flags.(sendEof := false);
          if reliable {
            ArmAckTimer(cfg);
          }
        } else if reliable && flags.finAckCount != flags.finCount {
          var ackStatus := if phase != Hold then ACK_STATUS_ACTIVE else ACK_STATUS_TERMINATED;
          sent := [Packet(phase != S2, Ack(DIR_FIN, data.peerCc, ackStatus))];
          flags := flags.(finAckCount := flags.finCount);
        }
      }
    }

    method TickTransaction(cfg: Config, env: Env) returns (sent: seq<Packet>, recycle: bool)
      requires Valid()
      modifies this, crc
      ensures chunks == old(chunks)
      ensures Valid() && Ticked(Abs(), sent, recycle) == Tick(cfg, old(Abs()), env)
    {
      hide InactivityTick, AckTimerTick, CheckState, Maintain, Separated;
      var active := phase != Hold;
      ghost var was := Abs();
      TickInactivity();
      if active {
        TickAckTimer();
        StateCheck(cfg, env);
      }
      assert Abs() == TickState(cfg, was, env);
      sent := TickMaintenance(cfg, env.bufOk);
      recycle := com.inactFired && phase == Hold;
    }

    method CancelTransaction()
      requires Valid()
      modifies this`com, this`status
      ensures Valid() && Abs() == Cancel(old(Abs()))
    {
      if !com.canceled {
        com := com.(canceled := true);
        SetTxnStatus(ST_CANCEL_REQUEST_RECEIVED);
      }
    }
  }

  lemma KeepsSub(cfg: Config, st: Tx, env: Env)
    ensures Check(cfg, st, env).0.data.sub == st.data.sub
  {
  }
}
