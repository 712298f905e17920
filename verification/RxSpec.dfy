/** The receiving transaction as a value, one function per step of the source. */
module RxSpec {
  import opened Cfdp
  import opened Crc
  import opened ChunkSpec
  import Gaps

  datatype Phase = R1 | R2 | Hold

  datatype Sub = DataNormal | DataEof | Validate | FileStore | FinAck | Complete {
    function Rank(): nat {
      match this
      case DataNormal => 0
      case DataEof => 1
      case Validate => 2
      case FileStore => 3
      case FinAck => 4
      case Complete => 5
    }
  }

  // Grouped as in the source: common flags, receive flags, state data, and the files.
  datatype Common = Common(closeReq: bool, ackArmed: bool, isComplete: bool, crcComplete: bool,
                           inactFired: bool, canceled: bool)

  datatype Flags = Flags(tempCreated: bool, mdRecv: bool, eofCount: nat, eofAckCount: nat, finAckRecv: bool,
                         sendNak: bool, sendFin: bool)

  datatype Data = Data(sub: Sub, acknak: nat, peerCc: nat, finDc: nat, finFs: nat, cachedPos: nat,
                       eofCrc: nat, eofSize: nat)

  // The temporary file while it is open, and the file under its final name.
  datatype Disk = Disk(fdOpen: bool, temp: seq<uint8>, pos: nat, retained: Option<seq<uint8>>)

  datatype Rx = Rx(phase: Phase, reliable: bool, status: Status, fsize: nat, ackTimer: nat, inactTimer: nat,
                   crc: State, cap: nat, chunks: seq<Chunk>,
                   com: Common, flags: Flags, data: Data, disk: Disk)
  {
    predicate Ok() { !IsError(status) }

    predicate Active() { phase != Hold }

    function SetStatus(s: Status): Rx {
      if Ok() then this.(status := s) else this
    }
  }

  // Outcomes of the calls into the operating system and the software bus.
  datatype Env = Env(seekOk: bool, written: nat, okReads: nat, moveOk: bool, bufOk: bool)

  // ---------- PDU handlers ----------

  // The ranges the chunk list may be given; the source asserts them.
  predicate Acceptable(p: Pdu) {
    p.FileData? ==> Addable(Chunk(p.offset, |p.data|))
  }

  function ProcessFd(st: Rx, off: nat, data: seq<uint8>, env: Env): Rx
    requires 0 < st.cap
  {
    var seek := st.data.cachedPos != off;
    if seek && !(st.disk.fdOpen && env.seekOk) then st.SetStatus(ST_FILE_SIZE_ERROR)
    else
      var at := if seek then off else st.disk.pos;
      var n := if !st.disk.fdOpen then 0 else Min(env.written, |data|);
      var disk := st.disk.(pos := at + n, temp := WriteAt(st.disk.temp, at, data[..n]));
      if !st.disk.fdOpen || n < |data| then
        st.(disk := disk, data := st.data.(cachedPos := off)).SetStatus(ST_FILESTORE_REJECTION)
      else
        st.(disk := disk, data := st.data.(cachedPos := off + |data|, acknak := 0),
            chunks := Add(st.cap, st.chunks, Chunk(off, |data|)))
  }

  function RecvEof(cfg: Config, st: Rx, cc: nat, crc: nat, size: nat): Rx {
    var a :=
      if st.flags.eofCount == 0 then st.(data := st.data.(eofCrc := crc, eofSize := size, peerCc := cc)).SetStatus(cc)
      else st;
    var (ok, n) := CountUp(cfg, a.flags.eofCount);
    var b := a.(flags := a.flags.(eofCount := n));
    if ok then b else b.SetStatus(ST_POS_ACK_LIMIT_REACHED)
  }

  // CF_CFDP_R_SubstateRecvMd over CF_CFDP_RecvMd: size and closure are stored even
  // when a name turns out too long.
  function RecvMd(cfg: Config, st: Rx, closeReq: bool, size: nat, srcLen: nat, dstLen: nat): Rx {
    if st.flags.mdRecv then st
    else
      st.(com := st.com.(closeReq := closeReq), fsize := size,
          flags := st.flags.(mdRecv := srcLen < cfg.nameMax && dstLen < cfg.nameMax))
  }

  function RecvFinAck(st: Rx, directive: nat): Rx {
    if directive == DIR_FIN then st.(flags := st.flags.(finAckRecv := true)) else st
  }

  // The rows of the two dispatch tables.
  predicate Handled(reliable: bool, sub: Sub, code: nat) {
    match sub
    case DataNormal => code == DIR_EOF || code == DIR_METADATA
    case DataEof => code == DIR_EOF || code == DIR_METADATA
    case Validate => reliable && code == DIR_EOF
    case FileStore => reliable && code == DIR_EOF
    case FinAck => reliable && (code == DIR_EOF || code == DIR_ACK)
    case Complete => reliable && (code == DIR_EOF || code == DIR_ACK)
  }

  function Handle(cfg: Config, st: Rx, p: Pdu, env: Env): Rx
    requires 0 < st.cap && Acceptable(p)
  {
    if p.IsFileData() then
      if p.FileData? && st.Ok() then ProcessFd(st, p.offset, p.data, env) else st
    else if !Handled(st.reliable, st.data.sub, p.Directive()) then st
    else match p
      case Eof(cc, crc, size) => RecvEof(cfg, st, cc, crc, size)
      case Metadata(cr, size, sl, dl) => RecvMd(cfg, st, cr, size, sl, dl)
      case Ack(d, _, _) => RecvFinAck(st, d)
      case _ => st
  }

  function ArmAck(cfg: Config, st: Rx): Rx {
    st.(ackTimer := cfg.ackTicks, com := st.com.(ackArmed := true))
  }

  function ArmInact(cfg: Config, st: Rx): Rx {
    st.(inactTimer := if st.Active() then cfg.inactTicks else 2 * cfg.ackTicks)
  }

  // CF_CFDP_DispatchRecv for a receiving transaction, before the timer is armed.
  function Dispatch(cfg: Config, st: Rx, pkt: Packet, env: Env): Rx
    requires 0 < st.cap && Acceptable(pkt.pdu)
  {
    if pkt.unacknowledged == st.reliable then st
    else match st.phase
      case R1 => Handle(cfg, st, pkt.pdu, env)
      case R2 =>
        var a := Handle(cfg, st, pkt.pdu, env);
        if a.com.ackArmed then ArmAck(cfg, a) else a
      case Hold =>
        if pkt.pdu.Eof? then RecvEof(cfg, st, pkt.pdu.cc, pkt.pdu.crc, pkt.pdu.size) else st
  }

  function Recv(cfg: Config, st: Rx, pkt: Packet, env: Env): Rx
    requires 0 < st.cap && Acceptable(pkt.pdu)
  {
    ArmInact(cfg, Dispatch(cfg, st, pkt, env))
  }

  // ---------- a new transaction ----------

  // The status is whatever the reused history entry still holds.
  function Zero(stale: Status, retained: Option<seq<uint8>>): Rx {
    Rx(Hold, false, stale, 0, 0, 0, START, Got(None).cap, Got(None).chunks,
       Common(false, false, false, false, false, false),
       Flags(false, false, 0, 0, false, false, false),
       Data(DataNormal, 0, 0, 0, 0, 0, 0, 0),
       Disk(false, [], 0, retained))
  }

  // CF_CFDP_R_Init, with or without success in creating the temporary file.
  function Init(st: Rx, createOk: bool): Rx {
    var a := st.(data := st.data.(finDc := DC_INVALID, finFs := FS_INVALID));
    if createOk then a.(disk := a.disk.(fdOpen := true), flags := a.flags.(tempCreated := true))
    else a.SetStatus(ST_FILESTORE_REJECTION)
  }

  // CF_CFDP_SetupRxTransaction, with the chunk list the pool hands out, if there is one.
  function Setup(cfg: Config, unack: bool, list: Option<Handed>, stale: Status, createOk: bool,
                 retained: Option<seq<uint8>>): Rx
  {
    var zero := Zero(stale, retained).(cap := Got(list).cap, chunks := Got(list).chunks);
    var a := if list.Some? then zero else zero.SetStatus(ST_NO_RESOURCE);
    ArmInact(cfg, if a.Ok() then Init(a.(phase := if unack then R1 else R2, reliable := !unack), createOk) else a)
  }

  // ---------- computing the checksum ----------

  // Result of the read loop: state of the file and checksum, and whether all reads succeeded.
  datatype CrcRun = CrcRun(cachedPos: nat, pos: nat, crc: State, success: bool)

  function CrcLoop(cfg: Config, fsize: nat, temp: seq<uint8>, run: CrcRun, count: nat, okReads: nat): CrcRun
    requires 0 < cfg.crcBlock
    decreases fsize - run.cachedPos
  {
    if count < cfg.crcRate && run.cachedPos < fsize then
      var n := Min(cfg.crcBlock, fsize - run.cachedPos);
      if okReads == 0 || |temp| < run.pos + n then run.(success := false)
      else
        CrcLoop(cfg, fsize, temp,
                CrcRun(run.cachedPos + n, run.pos + n, Digest(run.crc, temp[run.pos..run.pos + n]), true),
                count + n, okReads - 1)
    else run
  }

  function CalcCrcChunk(cfg: Config, st: Rx, env: Env): Rx
    requires 0 < cfg.crcBlock
  {
    var okReads := if st.disk.fdOpen then env.okReads else 0;
    var run := CrcLoop(cfg, st.fsize, st.disk.temp, CrcRun(st.data.cachedPos, st.disk.pos, st.crc, true), 0, okReads);
    var a := st.(data := st.data.(cachedPos := run.cachedPos), disk := st.disk.(pos := run.pos), crc := run.crc);
    if !run.success then a.(com := a.com.(crcComplete := true)).SetStatus(ST_FILE_SIZE_ERROR)
    else if run.cachedPos == st.fsize then a.(crc := Finalize(run.crc), com := a.com.(crcComplete := true))
    else a
  }

  function CalcCrcStart(st: Rx, env: Env): Rx {
    if st.fsize != st.data.eofSize || !(st.disk.fdOpen && env.seekOk) then
      st.(com := st.com.(crcComplete := true)).SetStatus(ST_FILE_SIZE_ERROR)
    else
      st.(crc := START, data := st.data.(cachedPos := 0), disk := st.disk.(pos := 0))
  }

  // ---------- disposing of the file ----------

  function Discard(st: Rx, dc: nat): Rx {
    var fs := if st.status == ST_FILESTORE_REJECTION then FS_DISCARDED_FILESTORE else FS_DISCARDED;
    st.(disk := st.disk.(temp := []), data := st.data.(finDc := dc, finFs := fs))
  }

  function Retain(st: Rx): Rx {
    st.SetStatus(ST_NO_ERROR).(
      disk := st.disk.(temp := [], retained := Some(st.disk.temp)),
      data := st.data.(finDc := DC_COMPLETE, finFs := FS_RETAINED))
  }

  // CF_CFDP_R_HandleFileRetention
  function HandleFileRetention(st: Rx, env: Env): Rx {
    var a := st.(disk := st.disk.(fdOpen := false));
    if !a.flags.tempCreated then
      a.SetStatus(ST_FILESTORE_REJECTION).(data := a.data.(finDc := DC_INVALID, finFs := FS_INVALID))
    else if !a.com.isComplete then
      Discard(a.SetStatus(ST_INVALID_FILE_STRUCTURE), DC_INCOMPLETE)
    else if !a.Ok() || a.crc.result != a.data.eofCrc then
      Discard(a.SetStatus(ST_FILE_CHECKSUM_FAILURE), DC_COMPLETE)
    else if env.moveOk then Retain(a)
    else Discard(a.SetStatus(ST_FILESTORE_REJECTION), DC_COMPLETE)
  }

  // CF_CFDP_FinishTransaction, as far as this transaction is concerned.
  function Finish(cfg: Config, st: Rx): Rx {
    ArmInact(cfg, st.(disk := st.disk.(fdOpen := false), phase := Hold))
  }

  // ---------- the state checks: what changes, and the next sub-state ----------

  predicate CheckComplete(st: Rx)
    requires Separated(st.chunks)
  {
    !st.flags.sendNak && st.flags.eofCount != 0 && st.flags.mdRecv
    && Gaps.Reported(st.chunks, 1, st.fsize, 0) == []
  }

  function CheckDataNormal(st: Rx): (Rx, Sub) {
    (st, if st.flags.eofCount != 0 then DataEof else if !st.Ok() then FileStore else DataNormal)
  }

  function CheckDataEof(cfg: Config, st: Rx): (Rx, Sub)
    requires Separated(st.chunks)
  {
    if !st.Ok() then (st, FileStore)
    else if CheckComplete(st) then (st.(com := st.com.(isComplete := true)), Validate)
    else if st.reliable && !st.flags.sendNak && !st.com.ackArmed then
      var (ok, n) := CountUp(cfg, st.data.acknak);
      if ok then (st.(data := st.data.(acknak := n), flags := st.flags.(sendNak := true)), DataEof)
      else (st.SetStatus(ST_NAK_LIMIT_REACHED), FileStore)
    else (st, DataEof)
  }

  function CheckValidate(cfg: Config, st: Rx, env: Env): (Rx, Sub)
    requires 0 < cfg.crcBlock
  {
    if !st.Ok() || st.data.cachedPos == st.fsize then (st, FileStore)
    else (CalcCrcChunk(cfg, st, env), Validate)
  }

  function CheckFileStore(st: Rx, env: Env): (Rx, Sub) {
    (HandleFileRetention(st, env), if st.reliable || st.com.closeReq then FinAck else Complete)
  }

  function CheckFinAck(cfg: Config, st: Rx): (Rx, Sub) {
    if st.flags.sendFin then (st, FinAck)
    else if !st.reliable || st.flags.finAckRecv || st.com.inactFired then (st, Complete)
    else if !st.com.ackArmed then
      var (ok, n) := CountUp(cfg, st.data.acknak);
      if ok then (st.(data := st.data.(acknak := n), flags := st.flags.(sendFin := true)), FinAck)
      else (st, Complete)
    else (st, FinAck)
  }

  function Check(cfg: Config, st: Rx, env: Env): (Rx, Sub)
    requires Separated(st.chunks) && 0 < cfg.crcBlock
  {
    match st.data.sub
    case DataNormal => CheckDataNormal(st)
    case DataEof => CheckDataEof(cfg, st)
    case Validate => CheckValidate(cfg, st, env)
    case FileStore => CheckFileStore(st, env)
    case FinAck => CheckFinAck(cfg, st)
    case Complete => (st, Complete)
  }

  // One-time work on entering a sub-state.
  function Enter(cfg: Config, st: Rx, next: Sub, env: Env): Rx {
    var a := st.(data := st.data.(sub := next), com := st.com.(ackArmed := false));
    match next
    case DataEof => a.(data := a.data.(acknak := 0), flags := a.flags.(sendNak := a.reliable || a.flags.sendNak))
    case Validate => CalcCrcStart(a, env)
    case FinAck => a.(data := a.data.(acknak := 0), flags := a.flags.(sendFin := true))
    case Complete => Finish(cfg, a)
    case _ => a
  }

  // CF_CFDP_R_CheckState
  function CheckState(cfg: Config, st: Rx, env: Env): Rx
    requires Separated(st.chunks) && 0 < cfg.crcBlock
  {
    var (a, next) := Check(cfg, st, env);
    if next == st.data.sub then a else Enter(cfg, a, next, env)
  }

  // No state check touches the chunk list.
  lemma CheckStateKeepsChunks(cfg: Config, st: Rx, env: Env)
    requires Separated(st.chunks) && 0 < cfg.crcBlock
    ensures CheckState(cfg, st, env).chunks == st.chunks && CheckState(cfg, st, env).cap == st.cap
  {
    var (a, next) := Check(cfg, st, env);
    assert a.chunks == st.chunks && a.cap == st.cap;
    hide Check;
  }

  // ---------- a tick ----------

  function AckTimerTick(st: Rx): Rx {
    if !st.reliable || !st.com.ackArmed then st
    else if st.ackTimer != 0 then st.(ackTimer := st.ackTimer - 1)
    else st.(com := st.com.(ackArmed := false))
  }

  // The gaps computed for a NAK; the callback keeps as many as the PDU has room for.
  function NakGaps(cap: nat, chunks: seq<Chunk>, fsize: nat): seq<Chunk>
    requires Separated(chunks) && 0 < cap
  {
    Gaps.Reported(chunks, if |chunks| < cap then cap else cap - 1, fsize, 0)
  }

  function ToSegs(gaps: seq<Chunk>): (r: seq<Seg>)
    ensures |r| == |gaps|
    ensures forall k :: 0 <= k < |r| ==> r[k] == Seg(gaps[k].offset, gaps[k].End())
  {
    if gaps == [] then [] else [Seg(gaps[0].offset, gaps[0].End())] + ToSegs(gaps[1..])
  }

  function NakSegs(cfg: Config, cap: nat, chunks: seq<Chunk>, fsize: nat): seq<Seg>
    requires Separated(chunks) && 0 < cap
  {
    ToSegs(Gaps.Take(NakGaps(cap, chunks, fsize), cfg.maxSegments))
  }

  // What a packet of this transaction says about its class: the class is read off
  // the transaction state, which is no longer R2 once the transaction is held over.
  function Outgoing(st: Rx, p: Pdu): Packet { Packet(st.phase != R2, p) }

  function AckStatus(st: Rx): nat { if st.Active() then ACK_STATUS_ACTIVE else ACK_STATUS_TERMINATED }

  function SendNak(cfg: Config, st: Rx): (Rx, seq<Packet>)
    requires Separated(st.chunks) && 0 < st.cap
  {
    var a := st.(flags := st.flags.(sendNak := false));
    if !st.flags.mdRecv then (ArmAck(cfg, a), [Outgoing(st, Nak([Seg(0, 0)]))])
    else if NakGaps(st.cap, st.chunks, st.fsize) == [] then (a, [])
    else (ArmAck(cfg, a), [Outgoing(st, Nak(NakSegs(cfg, st.cap, st.chunks, st.fsize)))])
  }

  function SendFin(cfg: Config, st: Rx): (Rx, seq<Packet>) {
    var a := st.(flags := st.flags.(sendFin := false));
    (if a.reliable then ArmAck(cfg, a) else a,
     [Outgoing(st, WireFin(ToConditionCode(st.status), st.data.finDc, st.data.finFs))])
  }

  // CF_CFDP_R_Tick_Maintenance: at most one packet, none without a buffer.
  function Maintain(cfg: Config, st: Rx, bufOk: bool): (Rx, seq<Packet>)
    requires Separated(st.chunks) && 0 < st.cap
  {
    if !bufOk then (st, [])
    else if st.reliable && st.flags.eofAckCount != st.flags.eofCount then
      (st.(flags := st.flags.(eofAckCount := st.flags.eofCount)),
       [Outgoing(st, Ack(DIR_EOF, st.data.peerCc, AckStatus(st)))])
    else if st.flags.sendNak then SendNak(cfg, st)
    else if st.flags.sendFin then SendFin(cfg, st)
    else (st, [])
  }

  function InactivityTick(st: Rx): Rx {
    if st.com.inactFired then st
    else if st.inactTimer != 0 then st.(inactTimer := st.inactTimer - 1)
    else
      var a := st.(com := st.com.(inactFired := true));
      if st.Active() then a.SetStatus(ST_INACTIVITY_DETECTED) else a
  }

  // A tick up to its last part: timers and, in an active transaction, the state check.
  function TickState(cfg: Config, st: Rx, env: Env): (r: Rx)
    requires Separated(st.chunks) && 0 < cfg.crcBlock
    ensures r.chunks == st.chunks && r.cap == st.cap
  {
    var a := InactivityTick(st);
    if st.Active() then
      var b := AckTimerTick(a);
      CheckStateKeepsChunks(cfg, b, env);
      CheckState(cfg, b, env)
    else a
  }

  datatype Ticked = Ticked(rx: Rx, sent: seq<Packet>, recycled: bool)

  // CF_CFDP_R_Tick
  function Tick(cfg: Config, st: Rx, env: Env): Ticked
    requires Separated(st.chunks) && 0 < st.cap && 0 < cfg.crcBlock
  {
    var (c, sent) := Maintain(cfg, TickState(cfg, st, env), env.bufOk);
    Ticked(c, sent, c.com.inactFired && c.phase == Hold)
  }

  // Ground commands: cancel, and abandon (which only finishes the transaction).
  function Cancel(st: Rx): Rx {
    if st.com.canceled then st
    else st.(com := st.com.(canceled := true)).SetStatus(ST_CANCEL_REQUEST_RECEIVED)
  }
}
