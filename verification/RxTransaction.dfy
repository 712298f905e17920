/**
 The receiving transaction as the source has it: one object whose fields the steps
 update in place, over a chunk list and a checksum register of its own. Every method
 is proved against the function of the same step in RxSpec.
 */
module RxTransactions {
  import opened Cfdp
  import opened Crc
  import opened ChunkSpec
  import ChunkLists
  import Gaps
  import opened RxSpec
  import opened RxRuns

  class RxTransaction {
    var chunks: ChunkLists.ChunkList
    const crc: Register
    var phase: Phase
    var reliable: bool
    var status: Status
    var fsize: uint32
    var ackTimer: nat
    var inactTimer: nat
    var com: Common
    var flags: Flags
    var data: Data
    var disk: Disk

    ghost predicate Valid()
      reads this, chunks, chunks.chunks
    {
      chunks.Valid()
    }

    ghost function Abs(): (r: Rx)
      requires Valid()
      reads this, crc, chunks, chunks.chunks
      ensures 0 < r.cap && WellFormed(r.cap, r.chunks)
    {
      Rx(phase, reliable, status, fsize, ackTimer, inactTimer, crc.Abs(), chunks.maxChunks, chunks.Contents(),
         com, flags, data, disk)
    }

    // A transaction without a chunk list; the one it has instead is never used.
    constructor (stale: Status, retained: Option<seq<uint8>>)
      ensures Valid() && Abs() == Zero(stale, retained)
      ensures fresh(chunks) && fresh(chunks.chunks) && fresh(crc)
    {
      chunks := new ChunkLists.ChunkList(1);
      crc := new Register();
      phase, reliable, status, fsize, ackTimer, inactTimer := Hold, false, stale, 0, 0, 0;
      com := Common(false, false, false, false, false, false);
      flags := Flags(false, false, 0, 0, false, false, false);
      data := Data(DataNormal, 0, 0, 0, 0, 0, 0, 0);
      disk := Disk(false, [], 0, retained);
    }

    // ---------- small helpers ----------

    method SetTxnStatus(s: Status)
      requires Valid()
      modifies this`status
      ensures Valid() && Abs() == old(Abs()).SetStatus(s)
    {
      if !IsError(status) {
        status := s;
      }
    }

    method ArmAckTimer(cfg: Config)
      requires Valid()
      modifies this`ackTimer, this`com
      ensures Valid() && Abs() == ArmAck(cfg, old(Abs()))
    {
      ackTimer := cfg.ackTicks;
      com := com.(ackArmed := true);
    }

    method ArmInactTimer(cfg: Config)
      requires Valid()
      modifies this`inactTimer
      ensures Valid() && Abs() == ArmInact(cfg, old(Abs()))
    {
      inactTimer := if phase != Hold then cfg.inactTicks else 2 * cfg.ackTicks;
    }

    // The operating system, as far as the outcome of a call allows.
    method Seek(pos: nat, allowed: bool) returns (ok: bool)
      modifies this`disk
      ensures ok == (old(disk).fdOpen && allowed)
      ensures disk == if ok then old(disk).(pos := pos) else old(disk)
    {
      ok := disk.fdOpen && allowed;
      if ok {
        disk := disk.(pos := pos);
      }
    }

    method Write(bytes: seq<uint8>, limit: nat) returns (n: nat)
      modifies this`disk
      ensures n == if old(disk).fdOpen then Min(limit, |bytes|) else 0
      ensures disk == old(disk).(pos := old(disk).pos + n, temp := WriteAt(old(disk).temp, old(disk).pos, bytes[..n]))
    {
      n := if disk.fdOpen then Min(limit, |bytes|) else 0;
      disk := disk.(pos := disk.pos + n, temp := WriteAt(disk.temp, disk.pos, bytes[..n]));
    }

    method Read(n: nat, allowed: bool) returns (ok: bool, bytes: seq<uint8>)
      modifies this`disk
      ensures ok == (old(disk).fdOpen && allowed && old(disk).pos + n <= |old(disk).temp|)
      ensures ok ==> disk == old(disk).(pos := old(disk).pos + n)
      ensures ok ==> bytes == old(disk).temp[old(disk).pos..old(disk).pos + n]
      ensures !ok ==> disk == old(disk)
    {
      ok := disk.fdOpen && allowed && disk.pos + n <= |disk.temp|;
      bytes := [];
      if ok {
        bytes := disk.temp[disk.pos..disk.pos + n];
        disk := disk.(pos := disk.pos + n);
      }
    }

    // ---------- PDU handlers ----------

    // All but the retry count, which the caller resets on success.
    method ProcessFileData(off: uint32, bytes: seq<uint8>, env: Env) returns (ok: bool)
      requires Valid() && Addable(Chunk(off, |bytes|))
      modifies this`status, this`data, this`disk, chunks, chunks.chunks
      ensures Valid()
      ensures ok ==> ProcessFd(old(Abs()), off, bytes, env).data.acknak == 0
      ensures Abs() == var t := ProcessFd(old(Abs()), off, bytes, env);
                       if ok then t.(data := t.data.(acknak := old(data).acknak)) else t
    {
      hide WriteAt, Add, Separated;
      ok := true;
      if data.cachedPos != off {
        var sought := Seek(off, env.seekOk);
        if !sought {
          SetTxnStatus(ST_FILE_SIZE_ERROR);
          ok := false;
        } else {
          data := data.(cachedPos := off);
        }
      }
      if ok {
        var n := Write(bytes, env.written);
        if n != |bytes| {
          SetTxnStatus(ST_FILESTORE_REJECTION);
          ok := false;
        } else {
          assert bytes[..n] == bytes;
          data := data.(cachedPos := |bytes| + off);
          chunks.ListAdd(off, |bytes|);
        }
      }
    }

    method SubstateRecvFileData(off: uint32, bytes: seq<uint8>, env: Env)
      requires Valid() && Addable(Chunk(off, |bytes|))
      modifies this`status, this`data, this`disk, chunks, chunks.chunks
      ensures Valid() && Abs() == ProcessFd(old(Abs()), off, bytes, env)
    {
      hide ProcessFd;
      var ok := ProcessFileData(off, bytes, env);
      if ok {
        data := data.(acknak := 0);
      }
    }

    method SubstateRecvEof(cfg: Config, cc: nat, eofCrc: nat, size: nat)
      requires Valid()
      modifies this`status, this`data, this`flags
      ensures Valid() && Abs() == RecvEof(cfg, old(Abs()), cc, eofCrc, size)
    {
      hide WellFormed;
      ghost var was := Abs();
      if flags.eofCount == 0 {
        data := data.(eofCrc := eofCrc, eofSize := size, peerCc := cc);
        SetTxnStatus(cc);
      }
      ghost var noted := Abs();
      assert noted == if was.flags.eofCount == 0 then
                        was.(data := was.data.(eofCrc := eofCrc, eofSize := size, peerCc := cc)).SetStatus(cc)
                      else was;
      var ok, n := CheckAckNakCount(cfg, flags.eofCount);
      flags := flags.(eofCount := n);
      if !ok {
        SetTxnStatus(ST_POS_ACK_LIMIT_REACHED);
      }
    }

    method SubstateRecvMd(cfg: Config, closeReq: bool, size: uint32, srcLen: nat, dstLen: nat)
      requires Valid()
      modifies this`com, this`fsize, this`flags
      ensures Valid() && Abs() == RecvMd(cfg, old(Abs()), closeReq, size, srcLen, dstLen)
    {
      if !flags.mdRecv {
        com := com.(closeReq := closeReq);
        fsize := size;
        if srcLen < cfg.nameMax && dstLen < cfg.nameMax {
          flags := flags.(mdRecv := true);
        }
      }
    }

    method SubstateRecvFinAck(directive: nat)
      requires Valid()
      modifies this`flags
      ensures Valid() && Abs() == RecvFinAck(old(Abs()), directive)
    {
      if directive == DIR_FIN {
        flags := flags.(finAckRecv := true);
      }
    }

    // The sub-state's row of the dispatch table, then the selected handler.
    method SubstateDispatch(cfg: Config, p: Pdu, env: Env)
      requires Valid() && Acceptable(p) && (p.Metadata? ==> p.size <= U32_MAX)
      modifies this, chunks, chunks.chunks
      ensures chunks == old(chunks)
      ensures Valid() && Abs() == Handle(cfg, old(Abs()), p, env)
    {
      hide ProcessFd, RecvEof, RecvMd;
      if p.IsFileData() {
        if p.FileData? && !IsError(status) {
          SubstateRecvFileData(p.offset, p.data, env);
        }
      } else if Handled(reliable, data.sub, p.Directive()) {
        match p {
          case Eof(cc, eofCrc, size) => SubstateRecvEof(cfg, cc, eofCrc, size);
          case Metadata(closeReq, size, srcLen, dstLen) => SubstateRecvMd(cfg, closeReq, size, srcLen, dstLen);
          case Ack(directive, _, _) => SubstateRecvFinAck(directive);
          case _ =>
        }
      }
    }

    method DispatchRecv(cfg: Config, pkt: Packet, env: Env)
      requires Valid() && Acceptable(pkt.pdu) && (pkt.pdu.Metadata? ==> pkt.pdu.size <= U32_MAX)
      modifies this, chunks, chunks.chunks
      ensures chunks == old(chunks)
      ensures Valid() && Abs() == Recv(cfg, old(Abs()), pkt, env)
    {
      hide Handle, RecvEof, ArmAck, ArmInact;
      if pkt.unacknowledged != reliable {
        match phase {
          case R1 =>
            SubstateDispatch(cfg, pkt.pdu, env);
          case R2 =>
            SubstateDispatch(cfg, pkt.pdu, env);
            if com.ackArmed {
              ArmAckTimer(cfg);
            }
          case Hold =>
            if pkt.pdu.Eof? {
              SubstateRecvEof(cfg, pkt.pdu.cc, pkt.pdu.crc, pkt.pdu.size);
            }
        }
      }
      ArmInactTimer(cfg);
    }

    // ---------- a new transaction ----------

    method InitReceiver(createOk: bool)
      requires Valid()
      modifies this`status, this`data, this`disk, this`flags
      ensures Valid() && Abs() == Init(old(Abs()), createOk)
    {
      data := data.(finDc := DC_INVALID, finFs := FS_INVALID);
      if createOk {
        disk := disk.(fdOpen := true);
        flags := flags.(tempCreated := true);
      } else {
        SetTxnStatus(ST_FILESTORE_REJECTION);
      }
    }

    // With the list the pool hands out, entries and all, or none.
    method SetupRxTransaction(cfg: Config, unack: bool, list: ChunkLists.ChunkList?, createOk: bool)
      requires Valid() && Abs() == Zero(status, disk.retained) && (list != null ==> list.Valid())
      modifies this`chunks, this`phase, this`reliable, this`status, this`data, this`disk, this`flags, this`inactTimer
      ensures Valid() && chunks == (if list != null then list else old(chunks))
      ensures Abs() == Setup(cfg, unack, ChunkLists.GivenOut(list), old(status), createOk, old(disk).retained)
    {
      hide Init, WellFormed;
      if list == null {
        SetTxnStatus(ST_NO_RESOURCE);
      } else {
        chunks := list;
      }
      if IsError(status) {
        phase := Hold;
      } else {
        reliable := !unack;
        phase := if reliable then R2 else R1;
        InitReceiver(createOk);
      }
      ArmInactTimer(cfg);
    }

    // ---------- computing the checksum ----------

    method StartCrc(env: Env)
      requires Valid()
      modifies this`status, this`com, this`data, this`disk, crc
      ensures Valid() && Abs() == CalcCrcStart(old(Abs()), env)
    {
      if fsize != data.eofSize {
        SetTxnStatus(ST_FILE_SIZE_ERROR);
        com := com.(crcComplete := true);
      } else {
        var ok := Seek(0, env.seekOk);
        if !ok {
          SetTxnStatus(ST_FILE_SIZE_ERROR);
          com := com.(crcComplete := true);
        } else {
          crc.Start();
          data := data.(cachedPos := 0);
        }
      }
    }

    // One call reads the file block by block, up to the limit per wakeup.
    method DigestBlocks(cfg: Config, env: Env) returns (success: bool)
      requires Valid() && 0 < cfg.crcBlock
      modifies this`data, this`disk, crc
      ensures Valid()
      ensures var was := old(Abs());
              var okReads := if was.disk.fdOpen then env.okReads else 0;
              var run := CrcLoop(cfg, was.fsize, was.disk.temp,
                                 CrcRun(was.data.cachedPos, was.disk.pos, was.crc, true), 0, okReads);
              && success == run.success
              && Abs() == was.(data := was.data.(cachedPos := run.cachedPos), disk := was.disk.(pos := run.pos),
                               crc := run.crc)
    {
      hide Digest;
      ghost var left := if disk.fdOpen then env.okReads else 0;
      ghost var run := CrcLoop(cfg, fsize, disk.temp, CrcRun(data.cachedPos, disk.pos, crc.Abs(), true), 0, left);
      success := true;
      var countBytes: nat := 0;
      var blocks: nat := 0;
      while countBytes < cfg.crcRate && data.cachedPos < fsize
        invariant left == if disk.fdOpen && blocks <= env.okReads then env.okReads - blocks else 0
        invariant data == old(data).(cachedPos := data.cachedPos) && disk == old(disk).(pos := disk.pos)
        invariant run == CrcLoop(cfg, fsize, disk.temp, CrcRun(data.cachedPos, disk.pos, crc.Abs(), true), countBytes,
                  left)
        decreases fsize - data.cachedPos
      {
        var wantOffs := data.cachedPos + cfg.crcBlock;
        var readSize := if fsize < wantOffs then fsize - data.cachedPos else cfg.crcBlock;
        var ok, buf := Read(readSize, blocks < env.okReads);
        if !ok {
          success := false;
          break;
        }
        crc.DigestAll(buf);
        data := data.(cachedPos := data.cachedPos + readSize);
        countBytes := countBytes + readSize;
        blocks := blocks + 1;
        left := left - 1;
      }
    }

    method CalcChecksumChunk(cfg: Config, env: Env)
      requires Valid() && 0 < cfg.crcBlock
      modifies this`status, this`com, this`data, this`disk, crc
      ensures Valid() && Abs() == CalcCrcChunk(cfg, old(Abs()), env)
    {
      hide CrcLoop, Finalize;
      var success := DigestBlocks(cfg, env);
      if !success {
        SetTxnStatus(ST_FILE_SIZE_ERROR);
        com := com.(crcComplete := true);
      } else if data.cachedPos == fsize {
        crc.FinalizeResult();
        com := com.(crcComplete := true);
      }
    }

    // ---------- disposing of the file ----------

    method FileRetention(env: Env)
      requires Valid()
      modifies this`status, this`data, this`disk
      ensures Valid() && Abs() == HandleFileRetention(old(Abs()), env)
    {
      disk := disk.(fdOpen := false);
      var subject := flags.tempCreated;
      var pendingFs, pendingDc := FS_INVALID, DC_INVALID;
      if !subject {
        SetTxnStatus(ST_FILESTORE_REJECTION);
      } else if !com.isComplete {
        pendingDc := DC_INCOMPLETE;
        SetTxnStatus(ST_INVALID_FILE_STRUCTURE);
      } else {
        pendingDc := DC_COMPLETE;
        if IsError(status) || crc.result != data.eofCrc {
          SetTxnStatus(ST_FILE_CHECKSUM_FAILURE);
        } else if env.moveOk {
          SetTxnStatus(ST_NO_ERROR);
          pendingFs := FS_RETAINED;
          disk := disk.(temp := [], retained := Some(disk.temp));
          subject := false;
        } else {
          SetTxnStatus(ST_FILESTORE_REJECTION);
        }
      }
      if subject {
        disk := disk.(temp := []);
        pendingFs := if status == ST_FILESTORE_REJECTION then FS_DISCARDED_FILESTORE else FS_DISCARDED;
      }
      data := data.(finDc := pendingDc, finFs := pendingFs);
    }

    method FinishTransaction(cfg: Config)
      requires Valid()
      modifies this`disk, this`phase, this`inactTimer
      ensures Valid() && Abs() == Finish(cfg, old(Abs()))
    {
      disk := disk.(fdOpen := false);
      phase := Hold;
      ArmInactTimer(cfg);
    }

    // ---------- the state checks ----------

    method IsFileComplete() returns (complete: bool)
      requires Valid()
      ensures complete == CheckComplete(Abs())
    {
      if flags.sendNak || flags.eofCount == 0 || !flags.mdRecv {
        complete := false;
      } else {
        var gaps := chunks.ComputeGaps(1, fsize, 0);
        complete := |gaps| == 0;
      }
    }

    method CheckStateDataNormal() returns (next: Sub)
      requires Valid()
      ensures (Abs(), next) == CheckDataNormal(old(Abs()))
    {
      next := DataNormal;
      if flags.eofCount != 0 {
        next := DataEof;
      } else if IsError(status) {
        next := FileStore;
      }
    }

    method CheckStateDataEof(cfg: Config) returns (next: Sub)
      requires Valid()
      modifies this`com, this`data, this`flags, this`status
      ensures Valid() && (Abs(), next) == CheckDataEof(cfg, old(Abs()))
    {
      hide CheckComplete, Separated;
      next := DataEof;
      if IsError(status) {
        return FileStore;
      }
      var complete := IsFileComplete();
      if complete {
        com := com.(isComplete := true);
        next := Validate;
      } else if reliable && !flags.sendNak && !com.ackArmed {
        var ok, n := CheckAckNakCount(cfg, data.acknak);
        if ok {
          data := data.(acknak := n);
          flags := flags.(sendNak := true);
        } else {
          SetTxnStatus(ST_NAK_LIMIT_REACHED);
          next := FileStore;
        }
      }
    }

    method CheckStateValidate(cfg: Config, env: Env) returns (next: Sub)
      requires Valid() && 0 < cfg.crcBlock
      modifies this`status, this`com, this`data, this`disk, crc
      ensures Valid() && (Abs(), next) == CheckValidate(cfg, old(Abs()), env)
    {
      hide CalcCrcChunk;
      if IsError(status) || data.cachedPos == fsize {
        next := FileStore;
      } else {
        CalcChecksumChunk(cfg, env);
        next := Validate;
      }
    }

    method CheckStateFileStore(env: Env) returns (next: Sub)
      requires Valid()
      modifies this`status, this`data, this`disk
      ensures Valid() && (Abs(), next) == CheckFileStore(old(Abs()), env)
    {
      hide HandleFileRetention;
      FileRetention(env);
      next := if reliable || com.closeReq then FinAck else Complete;
    }

    method CheckStateFinAck(cfg: Config) returns (next: Sub)
      requires Valid()
      modifies this`data, this`flags
      ensures Valid() && (Abs(), next) == CheckFinAck(cfg, old(Abs()))
    {
      next := FinAck;
      if !flags.sendFin {
        if !reliable || flags.finAckRecv || com.inactFired {
          next := Complete;
        } else if !com.ackArmed {
          var ok, n := CheckAckNakCount(cfg, data.acknak);
          if ok {
            data := data.(acknak := n);
            flags := flags.(sendFin := true);
          } else {
            next := Complete;
          }
        }
      }
    }

    method EnterState(cfg: Config, next: Sub, env: Env)
      requires Valid()
      modifies this, crc
      ensures chunks == old(chunks)
      ensures Valid() && Abs() == Enter(cfg, old(Abs()), next, env)
    {
      hide CalcCrcStart, Finish;
      data := data.(sub := next);
      com := com.(ackArmed := false);
      match next {
        case DataEof =>
          data := data.(acknak := 0);
          if reliable {
            flags := flags.(sendNak := true);
          }
        case Validate =>
          StartCrc(env);
        case FinAck =>
          data := data.(acknak := 0);
          flags := flags.(sendFin := true);
        case Complete =>
          FinishTransaction(cfg);
        case _ =>
      }
    }

    method StateCheck(cfg: Config, env: Env)
      requires Valid() && 0 < cfg.crcBlock
      modifies this, crc
      ensures chunks == old(chunks)
      ensures Valid() && Abs() == CheckState(cfg, old(Abs()), env)
    {
      hide CheckDataNormal, CheckDataEof, CheckValidate, CheckFileStore, CheckFinAck, Enter, Separated;
      ghost var was := Abs();
      CheckAdvances(cfg, was, env);
      var next := data.sub;
      match data.sub {
        case DataNormal => next := CheckStateDataNormal();
        case DataEof => next := CheckStateDataEof(cfg);
        case Validate => next := CheckStateValidate(cfg, env);
        case FileStore => next := CheckStateFileStore(env);
        case FinAck => next := CheckStateFinAck(cfg);
        case Complete =>
      }
      assert (Abs(), next) == Check(cfg, was, env);
      if next != data.sub {
        EnterState(cfg, next, env);
      }
    }

    // ---------- a tick ----------

    method TickAckTimer()
      requires Valid()
      modifies this`ackTimer, this`com
      ensures Valid() && Abs() == AckTimerTick(old(Abs()))
    {
      if reliable && com.ackArmed {
        if ackTimer != 0 {
          ackTimer := ackTimer - 1;
        } else {
          com := com.(ackArmed := false);
        }
      }
    }

    method TickInactivity()
      requires Valid()
      modifies this`inactTimer, this`com, this`status
      ensures Valid() && Abs() == InactivityTick(old(Abs()))
    {
      if !com.inactFired {
        if inactTimer != 0 {
          inactTimer := inactTimer - 1;
        } else {
          com := com.(inactFired := true);
          if phase != Hold {
            SetTxnStatus(ST_INACTIVITY_DETECTED);
          }
        }
      }
    }

    // The callback of the gap computation, called for one gap after the other:
    // a segment request for each, as long as the PDU has room.
    method GapsToSegments(cfg: Config, gaps: seq<Chunk>) returns (segs: seq<Seg>)
      ensures segs == ToSegs(Gaps.Take(gaps, cfg.maxSegments))
    {
      segs := [];
      for i := 0 to |gaps|
        invariant |segs| == Min(i, cfg.maxSegments)
        invariant forall k :: 0 <= k < |segs| ==> segs[k] == Seg(gaps[k].offset, gaps[k].End())
      {
        if |segs| < cfg.maxSegments {
          segs := segs + [Seg(gaps[i].offset, gaps[i].offset + gaps[i].size)];
        }
      }
    }

    method TrySendNak(cfg: Config) returns (sent: seq<Packet>)
      requires Valid()
      modifies this`ackTimer, this`com, this`flags
      ensures Valid() && (Abs(), sent) == SendNak(cfg, old(Abs()))
    {
      hide Gaps.Reported, Separated, ToSegs;
      sent := [];
      if flags.mdRecv {
        var gaps := chunks.ComputeGaps(if chunks.count < chunks.maxChunks then chunks.maxChunks
                                       else chunks.maxChunks - 1,
                                       fsize, 0);
        if |gaps| != 0 {
          var segs := GapsToSegments(cfg, gaps);
          sent := [Packet(phase != R2, Nak(segs))];
          ArmAckTimer(cfg);
        }
      } else {
        sent := [Packet(phase != R2, Nak([Seg(0, 0)]))];
        ArmAckTimer(cfg);
      }
      flags := flags.(sendNak := false);
    }

    method TrySendFin(cfg: Config) returns (sent: seq<Packet>)
      requires Valid()
      modifies this`ackTimer, this`com, this`flags
      ensures Valid() && (Abs(), sent) == SendFin(cfg, old(Abs()))
    {
      hide ToConditionCode;
      sent := [Packet(phase != R2, WireFin(ToConditionCode(status), data.finDc, data.finFs))];
      flags := flags.(sendFin := false);
      if reliable {
        ArmAckTimer(cfg);
      }
    }

    method TickMaintenance(cfg: Config, bufOk: bool) returns (sent: seq<Packet>)
      requires Valid()
      modifies this`ackTimer, this`com, this`flags
      ensures Valid() && (Abs(), sent) == Maintain(cfg, old(Abs()), bufOk)
    {
      hide SendNak, SendFin, Separated;
      sent := [];
      if bufOk {
        if reliable && flags.eofAckCount != flags.eofCount {
          sent := [Packet(phase != R2,
            Ack(DIR_EOF, data.peerCc, if phase != Hold then ACK_STATUS_ACTIVE else ACK_STATUS_TERMINATED))];
          flags := flags.(eofAckCount := flags.eofCount);
        } else if flags.sendNak {
          sent := TrySendNak(cfg);
        } else if flags.sendFin {
          sent := TrySendFin(cfg);
        }
      }
    }

    method TickTransaction(cfg: Config, env: Env) returns (sent: seq<Packet>, recycle: bool)
      requires Valid() && 0 < cfg.crcBlock
      modifies this, crc
      ensures chunks == old(chunks)
      ensures Valid() && Ticked(Abs(), sent, recycle) == Tick(cfg, old(Abs()), env)
    {
      hide InactivityTick, AckTimerTick, CheckState, Maintain, Separated;
      var active := phase != Hold;
      ghost var was := Abs();
      TickInactivity();
      if active {
        TickAckTimer();
        StateCheck(cfg, env);
      }
      assert Abs() == TickState(cfg, was, env);
      sent := TickMaintenance(cfg, env.bufOk);
      recycle := com.inactFired && phase == Hold;
    }

    method CancelTransaction()
      requires Valid()
      modifies this`com, this`status
      ensures Valid() && Abs() == Cancel(old(Abs()))
    {
      if !com.canceled {
        com := com.(canceled := true);
        SetTxnStatus(ST_CANCEL_REQUEST_RECEIVED);
      }
    }
  }
}
