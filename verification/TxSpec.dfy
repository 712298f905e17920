/** The sending transaction as a value, one function per step of the source. */
module TxSpec {
  import opened Cfdp
  import opened Crc
  import opened ChunkSpec

  datatype Phase = S1 | S2 | Hold

  datatype Sub = DataNormal | DataEof | FileStore | Complete {
    function Rank(): nat {
      match this
      case DataNormal => 0
      case DataEof => 1
      case FileStore => 2
      case Complete => 3
    }
  }

  // What became of the source file.
  datatype Source = InPlace | MovedToFailDir | MovedToMoveDir | Deleted {
    // Given up because the transfer succeeded.
    predicate Gone() { MovedToMoveDir? || Deleted? }
  }

  datatype Common = Common(closeReq: bool, ackArmed: bool, isComplete: bool, crcComplete: bool,
                           inactFired: bool, canceled: bool)

  datatype Flags = Flags(cmdTx: bool, fdNakPending: bool, eofAckRecv: bool, finCount: nat, finAckCount: nat,
                         sendMd: bool, sendEof: bool)

  datatype Data = Data(sub: Sub, acknak: nat, peerCc: nat, finDc: nat, finFs: nat, cachedPos: nat)

  datatype Tx = Tx(phase: Phase, reliable: bool, keep: bool, status: Status, fsize: nat, foffs: nat,
                   ackTimer: nat, inactTimer: nat, crc: State, cap: nat, chunks: seq<Chunk>,
                   com: Common, flags: Flags, data: Data,
                   fdOpen: bool, pos: nat, source: Source, srcLen: nat, dstLen: nat)
  {
    predicate Ok() { !IsError(status) }

    predicate Active() { phase != Hold }

    function SetStatus(s: Status): Tx {
      if Ok() then this.(status := s) else this
    }
  }

  // Outcomes of the calls outside: a message buffer and the room in it, the seek,
  // the bytes a read delivers, whether directories for failed and for sent files are
  // set, and whether the move or the removal of the source succeeds.
  datatype Env = Env(bufOk: bool, room: nat, seekOk: bool, read: nat, failDir: bool, moveDir: bool, disposeOk: bool)

  function ArmAck(cfg: Config, st: Tx): Tx {
    st.(ackTimer := cfg.ackTicks, com := st.com.(ackArmed := true))
  }

  function ArmInact(cfg: Config, st: Tx): Tx {
    st.(inactTimer := if st.Active() then cfg.inactTicks else 2 * cfg.ackTicks)
  }

  function Outgoing(st: Tx, p: Pdu): Packet { Packet(st.phase != S2, p) }

  function AckStatus(st: Tx): nat { if st.Active() then ACK_STATUS_ACTIVE else ACK_STATUS_TERMINATED }

  // A transaction that waits in the pending queue: no file and no chunk list yet.
  function Pending(class2: bool, keep: bool, cmdTx: bool, stale: Status, srcLen: nat, dstLen: nat): Tx {
    Tx(if class2 then S2 else S1, class2, keep, stale, 0, 0, 0, 0, START, Got(None).cap, Got(None).chunks,
       Common(false, false, false, false, false, false),
       Flags(cmdTx, false, false, 0, 0, false, false),
       Data(DataNormal, 0, 0, 0, 0, 0),
       false, 0, InPlace, srcLen, dstLen)
  }

  // Outcomes of setting up: the chunk list the pool hands out, if there is one, and the
  // checks and calls on the source file.
  datatype Opening = Opening(list: Option<Handed>, alreadyOpen: bool, openOk: bool, seekEnd: Option<uint32>,
                             seekStartOk: bool)

  // CF_CFDP_S_Init
  function Init(st: Tx, o: Opening): Tx {
    if !st.Ok() || o.alreadyOpen || !o.openOk || o.seekEnd == None then st.SetStatus(ST_FILESTORE_REJECTION)
    else
      var a := st.(fsize := o.seekEnd.value);
      if o.seekStartOk then a.(fdOpen := true, crc := START, flags := a.flags.(sendMd := true))
      else a.SetStatus(ST_FILESTORE_REJECTION)
  }

  // CF_CFDP_SetupTxTransaction: the transaction, and whether it is put to work or
  // recycled on the spot.
  function Setup(cfg: Config, st: Tx, o: Opening): (Tx, bool) {
    var a :=
      if o.list.Some? then st.(cap := o.list.value.cap, chunks := o.list.value.chunks)
      else st.SetStatus(ST_NO_RESOURCE);
    var b := if a.Ok() then Init(a, o) else a;
    if b.Ok() then (ArmInact(cfg, b), true) else (b, false)
  }

  // A transaction that CF_CFDP_S_Init has opened its file for.
  function Start(cfg: Config, class2: bool, keep: bool, cmdTx: bool, size: nat, list: Handed, stale: Status,
                 srcLen: nat, dstLen: nat): Tx
  {
    ArmInact(cfg, Tx(if class2 then S2 else S1, class2, keep, stale, size, 0, 0, 0, START, list.cap, list.chunks,
                     Common(false, false, false, false, false, false),
                     Flags(cmdTx, false, false, 0, 0, true, false),
                     Data(DataNormal, 0, 0, 0, 0, 0),
                     true, 0, InPlace, srcLen, dstLen))
  }

  // ---------- sending file data ----------

  datatype SendResult = NoBuffer | Failed | Sent(n: nat)

  datatype Sending = Sending(tx: Tx, result: SendResult, sent: seq<Packet>)

  // The second half of CF_CFDP_S_SendFileData: `n` bytes are read and sent as those
  // from `foffs` on.
  function ReadAndSend(st: Tx, src: seq<uint8>, foffs: nat, n: nat, calcCrc: bool, env: Env): Sending {
    var got := if !st.fdOpen || |src| <= st.pos then 0 else Min(Min(env.read, n), |src| - st.pos);
    if !st.fdOpen || got < n then
      // a short read may still have moved the file position
      Sending(st.(pos := st.pos + got), Failed, [])
    else
      var bytes := if n == 0 then [] else src[st.pos..st.pos + n];
      var a := st.(pos := st.pos + n, data := st.data.(cachedPos := foffs + n));
      Sending(if calcCrc then a.(crc := Digest(a.crc, bytes)) else a, Sent(n), [Outgoing(st, FileData(foffs, bytes))])
  }

  // CF_CFDP_S_SendFileData; `src` is the source file.
  function SendFileData(cfg: Config, st: Tx, src: seq<uint8>, foffs: nat, want: nat, calcCrc: bool, env: Env): Sending {
    if !env.bufOk then Sending(st, NoBuffer, [])
    else
      var n := Min(Min(env.room, want), cfg.chunkSize);
      var seek := st.data.cachedPos != foffs;
      if seek && !(st.fdOpen && env.seekOk) then Sending(st, Failed, [])
      else
        ReadAndSend(if seek then st.(pos := foffs, data := st.data.(cachedPos := foffs)) else st,
                    src, foffs, n, calcCrc, env)
  }

  // CF_CFDP_S_SubstateSendFileData, called by CF_CFDP_S_Tick_NewData in DATA_NORMAL.
  function SendNewData(cfg: Config, st: Tx, src: seq<uint8>, env: Env): (Tx, seq<Packet>) {
    if st.data.sub != DataNormal || st.fsize <= st.foffs then (st, [])
    else
      var r := SendFileData(cfg, st, src, st.foffs, st.fsize - st.foffs, true, env);
      match r.result
      case NoBuffer => (r.tx, [])
      case Failed => (r.tx.SetStatus(ST_READ_FAILURE), [])
      case Sent(n) =>
        if 0 < n then (r.tx.(foffs := r.tx.foffs + n), r.sent) else (r.tx.SetStatus(ST_READ_FAILURE), r.sent)
  }

  // CF_CFDP_S_Tick_Nak
  function TickNak(cfg: Config, st: Tx, src: seq<uint8>, env: Env): (Tx, seq<Packet>) {
    if !st.flags.fdNakPending then (st, [])
    else if st.chunks == [] then (st.(flags := st.flags.(fdNakPending := false)), [])
    else
      var r := SendFileData(cfg, st, src, st.chunks[0].offset, st.chunks[0].size, false, env);
      if r.result.Sent? && 0 < r.result.n then
        (r.tx.(chunks := RemoveFromFirst(st.chunks, r.result.n)), r.sent)
      else (r.tx, r.sent)
  }

  // ---------- PDU handlers ----------

  function RecvFin(cfg: Config, st: Tx, cc: nat, dc: nat, fs: nat): Tx {
    var a :=
      if st.flags.finCount == 0 then st.(data := st.data.(peerCc := cc, finDc := dc, finFs := fs)).SetStatus(cc)
      else st;
    var (ok, n) := CountUp(cfg, a.flags.finCount);
    var b := a.(flags := a.flags.(finCount := n));
    if ok then b else b.SetStatus(ST_POS_ACK_LIMIT_REACHED)
  }

  function EarlyFin(cfg: Config, st: Tx, cc: nat, dc: nat, fs: nat): Tx {
    RecvFin(cfg, st.SetStatus(ST_EARLY_FIN), cc, dc, fs)
  }

  function RecvEofAck(st: Tx, directive: nat): Tx {
    if directive == DIR_EOF then st.(flags := st.flags.(eofAckRecv := true)) else st
  }

  // A request for data the sender has; the others are for metadata or bad.
  predicate DataRequest(fsize: nat, sr: Seg) {
    sr != Seg(0, 0) && sr.start <= sr.end <= fsize
  }

  // The ranges the chunk list may be given; the source asserts them.
  predicate AcceptableSegs(fsize: nat, segs: seq<Seg>) {
    fsize <= U32_MAX && forall i :: 0 <= i < |segs| && DataRequest(fsize, segs[i]) ==> segs[i].start < segs[i].end
  }

  function RecvSeg(st: Tx, sr: Seg): Tx
    requires 0 < st.cap
  {
    if sr == Seg(0, 0) then st.(flags := st.flags.(sendMd := true))
    else if !DataRequest(st.fsize, sr) then st
    else
      st.(chunks := Add(st.cap, st.chunks, Chunk(sr.start, sr.end - sr.start)),
          flags := st.flags.(fdNakPending := true))
  }

  function RecvNak(st: Tx, segs: seq<Seg>): (r: Tx)
    requires 0 < st.cap
    decreases |segs|
  {
    if segs == [] then st else RecvNak(RecvSeg(st, segs[0]), segs[1..])
  }

  predicate Acceptable(fsize: nat, p: Pdu) { p.Nak? ==> AcceptableSegs(fsize, p.segs) }

  // The rows of the two dispatch tables; in DATA_NORMAL a FIN is an early one.
  predicate Handled(reliable: bool, sub: Sub, code: nat) {
    if !reliable then (sub == DataNormal || sub == DataEof) && code == DIR_FIN
    else if sub == DataNormal then code == DIR_FIN || code == DIR_NAK
    else code == DIR_FIN || code == DIR_ACK || code == DIR_NAK
  }

  function Handle(cfg: Config, st: Tx, p: Pdu): Tx
    requires 0 < st.cap
  {
    if p.IsFileData() || !Handled(st.reliable, st.data.sub, p.Directive()) then st
    else match p
      case Fin(cc, dc, fs) =>
        if st.data.sub == DataNormal then EarlyFin(cfg, st, cc, dc, fs) else RecvFin(cfg, st, cc, dc, fs)
      case Ack(d, _, _) => RecvEofAck(st, d)
      case Nak(segs) => RecvNak(st, segs)
      case _ => st
  }

  // CF_CFDP_DispatchRecv for a sending transaction.
  function Dispatch(cfg: Config, st: Tx, pkt: Packet): Tx
    requires 0 < st.cap
  {
    if pkt.unacknowledged == st.reliable then st
    else if st.Active() then Handle(cfg, st, pkt.pdu)
    else if pkt.pdu.Fin? then RecvFin(cfg, st, pkt.pdu.cc, pkt.pdu.dc, pkt.pdu.fs)
    else st
  }

  function Recv(cfg: Config, st: Tx, pkt: Packet): Tx
    requires 0 < st.cap
  {
    ArmInact(cfg, Dispatch(cfg, st, pkt))
  }

  // ---------- the state checks: what changes, and the next sub-state ----------

  // CF_CFDP_S_HandleFileRetention
  function HandleFileRetention(st: Tx, env: Env): Tx {
    if !st.Ok() || !st.com.isComplete then
      if !st.flags.cmdTx && env.failDir && env.disposeOk then st.(source := MovedToFailDir) else st
    else if st.keep then st
    else if (!st.reliable || (st.data.finFs == FS_RETAINED && st.data.finDc == DC_COMPLETE)) && env.disposeOk then
      st.(source := if env.moveDir then MovedToMoveDir else Deleted)
    else st
  }

  function Finish(cfg: Config, st: Tx): Tx {
    ArmInact(cfg, st.(fdOpen := false, phase := Hold))
  }

  function CheckDataNormal(st: Tx): (Tx, Sub) {
    (st, if st.fsize <= st.foffs then DataEof
         else if !st.Ok() || st.flags.finCount != 0 then FileStore
         else DataNormal)
  }

  function CheckDataEof1(st: Tx): (Tx, Sub) {
    if !st.com.closeReq then
      (st.(data := st.data.(finDc := FS_UNREPORTED), com := st.com.(isComplete := true)), FileStore)
    else if st.flags.finCount != 0 then (st.(com := st.com.(isComplete := true)), FileStore)
    else (st, DataEof)
  }

  function CheckDataEof2(cfg: Config, st: Tx): (Tx, Sub) {
    if st.flags.finCount != st.flags.finAckCount then (st, DataEof)
    else if st.flags.eofAckRecv then
      if st.flags.finCount != 0 then (st.(com := st.com.(isComplete := true)), FileStore) else (st, DataEof)
    else if st.com.ackArmed then (st, DataEof)
    else if st.flags.finCount != 0 then (st, FileStore)
    else
      var (ok, n) := CountUp(cfg, st.data.acknak);
      if ok then (st.(data := st.data.(acknak := n), flags := st.flags.(sendEof := true)), DataEof)
      else (st.SetStatus(ST_NAK_LIMIT_REACHED), FileStore)
  }

  function Check(cfg: Config, st: Tx, env: Env): (Tx, Sub) {
    match st.data.sub
    case DataNormal => CheckDataNormal(st)
    case DataEof =>
      if !st.Ok() then (st, FileStore)
      else if st.flags.sendEof then (st, DataEof)
      else if !st.reliable then CheckDataEof1(st)
      else CheckDataEof2(cfg, st)
    case FileStore => (HandleFileRetention(st, env), Complete)
    case Complete => (st, Complete)
  }

  function Enter(cfg: Config, st: Tx, next: Sub): Tx {
    var a := st.(data := st.data.(sub := next), com := st.com.(ackArmed := false));
    match next
    case DataEof =>
      a.(data := a.data.(acknak := 0), crc := Finalize(a.crc), com := a.com.(crcComplete := true),
         flags := a.flags.(sendEof := true))
    case Complete => Finish(cfg, a)
    case _ => a
  }

  function CheckState(cfg: Config, st: Tx, env: Env): Tx {
    var (a, next) := Check(cfg, st, env);
    if next == st.data.sub then a else Enter(cfg, a, next)
  }

  // ---------- a tick ----------

  function AckTimerTick(st: Tx): Tx {
    if !st.reliable || !st.com.ackArmed then st
    else if st.ackTimer != 0 then st.(ackTimer := st.ackTimer - 1)
    else st.(com := st.com.(ackArmed := false))
  }

  function InactivityTick(st: Tx): Tx {
    if st.com.inactFired || st.data.sub == DataNormal then st
    else if st.inactTimer != 0 then st.(inactTimer := st.inactTimer - 1)
    else
      var a := st.(com := st.com.(inactFired := true));
      if st.Active() then a.SetStatus(ST_INACTIVITY_DETECTED) else a
  }

  // CF_CFDP_S_Tick_Maintenance: at most one packet, none without a buffer.
  function Maintain(cfg: Config, st: Tx, bufOk: bool): (Tx, seq<Packet>) {
    if !bufOk then (st, [])
    else if st.flags.sendMd then
      (st.(flags := st.flags.(sendMd := false)),
       [Outgoing(st, Metadata(st.com.closeReq, st.fsize, st.srcLen, st.dstLen))])
    else if st.flags.sendEof then
      var a := st.(flags := st.flags.(sendEof := false));
      (if a.reliable then ArmAck(cfg, a) else a,
       [Outgoing(st, Eof(ToConditionCode(st.status), st.crc.result, st.fsize))])
    else if st.reliable && st.flags.finAckCount != st.flags.finCount then
      (st.(flags := st.flags.(finAckCount := st.flags.finCount)),
       [Outgoing(st, Ack(DIR_FIN, st.data.peerCc, AckStatus(st)))])
    else (st, [])
  }

  function TickState(cfg: Config, st: Tx, env: Env): Tx {
    var a := InactivityTick(st);
    if st.Active() then CheckState(cfg, AckTimerTick(a), env) else a
  }

  datatype Ticked = Ticked(tx: Tx, sent: seq<Packet>, recycled: bool)

  // CF_CFDP_S_Tick
  function Tick(cfg: Config, st: Tx, env: Env): Ticked {
    var (c, sent) := Maintain(cfg, TickState(cfg, st, env), env.bufOk);
    Ticked(c, sent, c.com.inactFired && c.phase == Hold)
  }

  function Cancel(st: Tx): Tx {
    if st.com.canceled then st
    else st.(com := st.com.(canceled := true)).SetStatus(ST_CANCEL_REQUEST_RECEIVED)
  }
}
