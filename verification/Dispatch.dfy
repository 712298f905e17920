/**
 Dispatching received PDUs: which table entry a PDU selects, what runs and what is
 counted, and what holdover and pending packets do to it.
 */
module Dispatch {
  import opened Cfdp
  import opened Crc
  import opened ChunkSpec
  import Rx = RxSpec
  import RR = RxRuns
  import Tx = TxSpec
  import TxRuns
  import RxTransactions

  // ---------- the receiver's tables ----------

  datatype RxHandler = OnFileData | OnEof | OnMetadata | OnFinAck

  // The entry of the sub-state's table for a directive below DIR_INVALID_MAX.
  function RxEntry(reliable: bool, sub: Rx.Sub, code: nat): Option<RxHandler> {
    match sub
    case DataNormal => if code == DIR_EOF then Some(OnEof) else if code == DIR_METADATA then Some(OnMetadata) else None
    case DataEof => if code == DIR_EOF then Some(OnEof) else if code == DIR_METADATA then Some(OnMetadata) else None
    case Validate => if reliable && code == DIR_EOF then Some(OnEof) else None
    case FileStore => if reliable && code == DIR_EOF then Some(OnEof) else None
    case _ =>
      if reliable && code == DIR_EOF then Some(OnEof)
      else if reliable && code == DIR_ACK then Some(OnFinAck)
      else None
  }

  // A handler decodes the PDU first; one that fails to decode changes nothing.
  function RunRx(cfg: Config, st: Rx.Rx, h: RxHandler, p: Pdu, env: Rx.Env): Rx.Rx
    requires 0 < st.cap && Rx.Acceptable(p)
  {
    match h
    case OnFileData => if p.FileData? then Rx.ProcessFd(st, p.offset, p.data, env) else st
    case OnEof => if p.Eof? then Rx.RecvEof(cfg, st, p.cc, p.crc, p.size) else st
    case OnMetadata => if p.Metadata? then Rx.RecvMd(cfg, st, p.closeReq, p.size, p.srcLen, p.dstLen) else st
    case OnFinAck => if p.Ack? then Rx.RecvFinAck(st, p.directive) else st
  }

  // The handler selected, and how far the spurious and the dropped counter move.
  datatype Selection<H> = Selection(handler: Option<H>, spurious: nat, dropped: nat)

  // CF_CFDP_R_DispatchRecv
  function SelectRx(st: Rx.Rx, p: Pdu): Selection<RxHandler> {
    if p.IsFileData() then (if st.Ok() then Selection(Some(OnFileData), 0, 0) else Selection(None, 0, 1))
    else if p.Directive() < DIR_INVALID_MAX then Selection(RxEntry(st.reliable, st.data.sub, p.Directive()), 0, 0)
    else Selection(None, 1, 0)
  }

  // CF_CFDP_RecvHold for a receiver
  function SelectRxHold(p: Pdu): Selection<RxHandler> {
    Selection(if !p.IsFileData() && p.Directive() == DIR_EOF then Some(OnEof) else None, 1, 0)
  }

  // CF_CFDP_RxStateDispatch: a PDU of the other mode goes to the DROP entry.
  function RxChoice(st: Rx.Rx, pkt: Packet): Selection<RxHandler> {
    if pkt.unacknowledged == st.reliable then Selection(None, 0, 1)
    else if st.phase == Rx.Hold then SelectRxHold(pkt.pdu)
    else SelectRx(st, pkt.pdu)
  }

  datatype Dispatched<S, H> = Dispatched(st: S, ran: seq<H>, spurious: nat, dropped: nat)

  function RxDispatch(cfg: Config, st: Rx.Rx, pkt: Packet, env: Rx.Env): Dispatched<Rx.Rx, RxHandler>
    requires 0 < st.cap && Rx.Acceptable(pkt.pdu)
  {
    var s := RxChoice(st, pkt);
    var a := if s.handler.Some? then RunRx(cfg, st, s.handler.value, pkt.pdu, env) else st;
    var b := if st.phase == Rx.R2 && pkt.unacknowledged != st.reliable && a.com.ackArmed then Rx.ArmAck(cfg, a) else a;
    Dispatched(b, if s.handler.Some? then [s.handler.value] else [], s.spurious, s.dropped)
  }

  // The step that counts is the step of the transaction.
  lemma RxDispatchAgrees(cfg: Config, st: Rx.Rx, pkt: Packet, env: Rx.Env)
    requires 0 < st.cap && Rx.Acceptable(pkt.pdu)
    ensures RxDispatch(cfg, st, pkt, env).st == Rx.Dispatch(cfg, st, pkt, env)
  {
    hide Rx.ProcessFd, Rx.RecvEof, Rx.RecvMd, Rx.RecvFinAck, Rx.ArmAck;
  }

  // At most one handler runs. If one does, the transaction is as that handler leaves
  // it, and if none does, as it was, in both cases but for the ack timer that
  // traffic puts off in class 2; a PDU of the other mode changes nothing at all.
  lemma OneHandler(cfg: Config, st: Rx.Rx, pkt: Packet, env: Rx.Env)
    requires 0 < st.cap && Rx.Acceptable(pkt.pdu)
    ensures var r := RxDispatch(cfg, st, pkt, env);
            && |r.ran| <= 1
            && (st.Active() || r.dropped == 1 ==> |r.ran| + r.spurious + r.dropped <= 1)
            && var a := if r.ran == [] then st else RunRx(cfg, st, r.ran[0], pkt.pdu, env);
               && (r.st == a || (r.st == Rx.ArmAck(cfg, a) && a.com.ackArmed))
               && (pkt.unacknowledged == st.reliable ==> r.st == st && r.dropped == 1)
  {
    hide Rx.ProcessFd, Rx.RecvEof, Rx.RecvMd, Rx.RecvFinAck;
  }

  // No table has a handler beyond its last index.
  lemma TablesInRange(reliable: bool, rxSub: Rx.Sub, txSub: Tx.Sub, code: nat)
    ensures RxEntry(reliable, rxSub, code).Some? <==> Rx.Handled(reliable, rxSub, code)
    ensures TxEntry(reliable, txSub, code).Some? <==> Tx.Handled(reliable, txSub, code)
    ensures Rx.Handled(reliable, rxSub, code) || Tx.Handled(reliable, txSub, code) ==> code < DIR_INVALID_MAX
  {
  }

  // ---------- the sender's tables ----------

  datatype TxHandler = OnEarlyFin | OnFin | OnEofAck | OnNak

  function TxEntry(reliable: bool, sub: Tx.Sub, code: nat): Option<TxHandler> {
    if !reliable then
      if code != DIR_FIN then None
      else match sub case DataNormal => Some(OnEarlyFin) case DataEof => Some(OnFin) case _ => None
    else if sub == Tx.DataNormal then
      if code == DIR_FIN then Some(OnEarlyFin) else if code == DIR_NAK then Some(OnNak) else None
    else if code == DIR_FIN then Some(OnFin)
    else if code == DIR_ACK then Some(OnEofAck)
    else if code == DIR_NAK then Some(OnNak)
    else None
  }

  function RunTx(cfg: Config, st: Tx.Tx, h: TxHandler, p: Pdu): Tx.Tx
    requires 0 < st.cap
  {
    match h
    case OnEarlyFin => if p.Fin? then Tx.EarlyFin(cfg, st, p.cc, p.dc, p.fs) else st
    case OnFin => if p.Fin? then Tx.RecvFin(cfg, st, p.cc, p.dc, p.fs) else st
    case OnEofAck => if p.Ack? then Tx.RecvEofAck(st, p.directive) else st
    case OnNak => if p.Nak? then Tx.RecvNak(st, p.segs) else st
  }

  // CF_CFDP_S_DispatchRecv; file data only raise an event.
  function SelectTx(st: Tx.Tx, p: Pdu): Selection<TxHandler> {
    if p.IsFileData() then Selection(None, 0, 0)
    else if p.Directive() < DIR_INVALID_MAX then Selection(TxEntry(st.reliable, st.data.sub, p.Directive()), 0, 0)
    else Selection(None, 1, 0)
  }

  function TxChoice(st: Tx.Tx, pkt: Packet): Selection<TxHandler> {
    if pkt.unacknowledged == st.reliable then Selection(None, 0, 1)
    else if st.phase == Tx.Hold then
      Selection(if !pkt.pdu.IsFileData() && pkt.pdu.Directive() == DIR_FIN then Some(OnFin) else None, 1, 0)
    else SelectTx(st, pkt.pdu)
  }

  function TxDispatch(cfg: Config, st: Tx.Tx, pkt: Packet): Dispatched<Tx.Tx, TxHandler>
    requires 0 < st.cap
  {
    var s := TxChoice(st, pkt);
    if s.handler.Some? then
      Dispatched(RunTx(cfg, st, s.handler.value, pkt.pdu), [s.handler.value], s.spurious, s.dropped)
    else Dispatched(st, [], s.spurious, s.dropped)
  }

  // The same for a sender.
  lemma OneHandlerTx(cfg: Config, st: Tx.Tx, pkt: Packet)
    requires 0 < st.cap
    ensures var r := TxDispatch(cfg, st, pkt);
            && r.st == Tx.Dispatch(cfg, st, pkt)
            && |r.ran| <= 1 && r.st == (if r.ran == [] then st else RunTx(cfg, st, r.ran[0], pkt.pdu))
            && (pkt.unacknowledged == st.reliable ==> r.st == st && r.ran == [] && r.dropped == 1)
  {
    hide Tx.RecvFin, Tx.EarlyFin, Tx.RecvNak, Tx.RecvEofAck;
  }

  // ---------- a run of PDUs ----------

  datatype Tally = Tally(handled: nat, spurious: nat, dropped: nat, ignored: nat)

  function Count<S, H>(n: Tally, r: Dispatched<S, H>): Tally {
    Tally(n.handled + |r.ran|, n.spurious + r.spurious, n.dropped + r.dropped,
          n.ignored + (if r.ran == [] && r.spurious == 0 && r.dropped == 0 then 1 else 0))
  }

  // A PDU with the outcome of the file operations it may cause.
  datatype Arrival = Arrival(pkt: Packet, env: Rx.Env)

  ghost predicate AllAcceptable(pdus: seq<Arrival>) {
    forall k :: 0 <= k < |pdus| ==> Rx.Acceptable(pdus[k].pkt.pdu)
  }

  datatype Delivered = Delivered(rx: Rx.Rx, tally: Tally, log: seq<RxHandler>)

  // The transaction, the counters and the handlers run, after a run of PDUs.
  function Deliver(cfg: Config, st: Rx.Rx, n: Tally, pdus: seq<Arrival>): Delivered
    requires 0 < st.cap && AllAcceptable(pdus)
    decreases |pdus|
  {
    if pdus == [] then Delivered(st, n, [])
    else
      var r := RxDispatch(cfg, st, pdus[0].pkt, pdus[0].env);
      assert Rx.ArmInact(cfg, r.st).cap == st.cap by { SameRoom(cfg, st, pdus[0].pkt, pdus[0].env); }
      var d := Deliver(cfg, Rx.ArmInact(cfg, r.st), Count(n, r), pdus[1..]);
      d.(log := r.ran + d.log)
  }

  lemma SameRoom(cfg: Config, st: Rx.Rx, pkt: Packet, env: Rx.Env)
    requires 0 < st.cap && Rx.Acceptable(pkt.pdu)
    ensures var t := Rx.ArmInact(cfg, RxDispatch(cfg, st, pkt, env).st);
            && t == Rx.Recv(cfg, st, pkt, env)
            && t.cap == st.cap && t.phase == st.phase && t.reliable == st.reliable && (!st.Ok() ==> !t.Ok())
  {
    hide Rx.Dispatch, RxDispatch, Add;
    RxDispatchAgrees(cfg, st, pkt, env);
    RR.RecvHandles(cfg, st, pkt, env);
  }

  // Over every run of PDUs at a transaction that is not held over, each is exactly
  // one of handled, counted as spurious, counted as dropped, or ignored, and the
  // handled ones are those a handler ran for.
  lemma {:induction false} EveryPduCounts(cfg: Config, st: Rx.Rx, n: Tally, pdus: seq<Arrival>)
    requires 0 < st.cap && AllAcceptable(pdus) && st.Active()
    ensures var d := Deliver(cfg, st, n, pdus);
            && d.tally.handled + d.tally.spurious + d.tally.dropped + d.tally.ignored
                 == n.handled + n.spurious + n.dropped + n.ignored + |pdus|
            && d.tally.handled == n.handled + |d.log|
    decreases |pdus|
  {
    if pdus != [] {
      hide RxDispatch, Rx.Recv, Rx.ArmInact;
      var r := RxDispatch(cfg, st, pdus[0].pkt, pdus[0].env);
      SameRoom(cfg, st, pdus[0].pkt, pdus[0].env);
      OneHandler(cfg, st, pdus[0].pkt, pdus[0].env);
      EveryPduCounts(cfg, Rx.ArmInact(cfg, r.st), Count(n, r), pdus[1..]);
    }
  }

  // PDUs of the other mode, and file data: what a transaction with an error drops.
  function Droppable(reliable: bool, pdus: seq<Arrival>): nat {
    if pdus == [] then 0
    else
      (if pdus[0].pkt.unacknowledged == reliable || pdus[0].pkt.pdu.IsFileData() then 1 else 0)
      + Droppable(reliable, pdus[1..])
  }

  predicate Mixed(reliable: bool, a: Arrival) { a.pkt.unacknowledged == reliable }

  predicate OutOfRange(a: Arrival) { !a.pkt.pdu.IsFileData() && DIR_INVALID_MAX <= a.pkt.pdu.Directive() }

  function MixedOnes(reliable: bool, pdus: seq<Arrival>): nat {
    if pdus == [] then 0 else (if Mixed(reliable, pdus[0]) then 1 else 0) + MixedOnes(reliable, pdus[1..])
  }

  function Unknown(reliable: bool, pdus: seq<Arrival>): nat {
    if pdus == [] then 0
    else (if !Mixed(reliable, pdus[0]) && OutOfRange(pdus[0]) then 1 else 0) + Unknown(reliable, pdus[1..])
  }

  // What the counters say, exactly: spurious are the directives beyond the tables,
  // and dropped at least the PDUs of the other mode; from the first error on,
  // dropped are these and all file data, and the handler of file data never runs.
  lemma {:induction false} CountersExact(cfg: Config, st: Rx.Rx, n: Tally, pdus: seq<Arrival>)
    requires 0 < st.cap && AllAcceptable(pdus) && st.Active()
    ensures var d := Deliver(cfg, st, n, pdus);
            && d.tally.spurious == n.spurious + Unknown(st.reliable, pdus)
            && n.dropped + MixedOnes(st.reliable, pdus) <= d.tally.dropped <= n.dropped + Droppable(st.reliable, pdus)
            && (!st.Ok() ==> d.tally.dropped == n.dropped + Droppable(st.reliable, pdus) && OnFileData !in d.log)
    decreases |pdus|
  {
    if pdus != [] {
      hide RxDispatch, Rx.Recv, Rx.ArmInact;
      var r := RxDispatch(cfg, st, pdus[0].pkt, pdus[0].env);
      SameRoom(cfg, st, pdus[0].pkt, pdus[0].env);
      OneCounted(cfg, st, pdus[0]);
      CountersExact(cfg, Rx.ArmInact(cfg, r.st), Count(n, r), pdus[1..]);
    }
  }

  lemma OneCounted(cfg: Config, st: Rx.Rx, a: Arrival)
    requires 0 < st.cap && Rx.Acceptable(a.pkt.pdu) && st.Active()
    ensures var r := RxDispatch(cfg, st, a.pkt, a.env);
            && r.spurious == (if !Mixed(st.reliable, a) && OutOfRange(a) then 1 else 0)
            && (Mixed(st.reliable, a) ==> r.dropped == 1 && r.ran == [])
            && r.dropped == (if Mixed(st.reliable, a) || (a.pkt.pdu.IsFileData() && !st.Ok()) then 1 else 0)
            && (!st.Ok() ==> OnFileData !in r.ran)
  {
    hide RunRx;
  }

  // In holdover everything of the right mode is spurious, and an EOF is handled besides.
  lemma {:induction false} HoldCounts(cfg: Config, st: Rx.Rx, n: Tally, pdus: seq<Arrival>)
    requires 0 < st.cap && AllAcceptable(pdus) && !st.Active()
    ensures var d := Deliver(cfg, st, n, pdus);
            && d.tally.dropped == n.dropped + MixedOnes(st.reliable, pdus)
            && d.tally.spurious + d.tally.dropped == n.spurious + n.dropped + |pdus|
            && d.tally.ignored == n.ignored && (forall h :: h in d.log ==> h == OnEof)
    decreases |pdus|
  {
    if pdus != [] {
      hide RxDispatch, Rx.Recv, Rx.ArmInact;
      var r := RxDispatch(cfg, st, pdus[0].pkt, pdus[0].env);
      SameRoom(cfg, st, pdus[0].pkt, pdus[0].env);
      OneHeld(cfg, st, pdus[0]);
      HoldCounts(cfg, Rx.ArmInact(cfg, r.st), Count(n, r), pdus[1..]);
    }
  }

  lemma OneHeld(cfg: Config, st: Rx.Rx, a: Arrival)
    requires 0 < st.cap && Rx.Acceptable(a.pkt.pdu) && !st.Active()
    ensures var r := RxDispatch(cfg, st, a.pkt, a.env);
            && r.dropped == (if Mixed(st.reliable, a) then 1 else 0) && r.spurious == 1 - r.dropped
            && (r.ran == [] || r.ran == [OnEof])
  {
    hide RunRx;
  }

  // The counters of a channel, moved as a transaction is given its PDUs.
  class Counters {
    var handled: nat
    var spurious: nat
    var dropped: nat
    var ignored: nat

    ghost function Abs(): Tally
      reads this
    {
      Tally(handled, spurious, dropped, ignored)
    }

    constructor ()
      ensures Abs() == Tally(0, 0, 0, 0)
    {
      handled, spurious, dropped, ignored := 0, 0, 0, 0;
    }

    method Receive(cfg: Config, txn: RxTransactions.RxTransaction, pkt: Packet, env: Rx.Env)
      requires txn.Valid() && Rx.Acceptable(pkt.pdu) && (pkt.pdu.Metadata? ==> pkt.pdu.size <= U32_MAX)
      modifies this, txn, txn.chunks, txn.chunks.chunks
      ensures txn.chunks == old(txn.chunks)
      ensures txn.Valid() && txn.Abs() == Rx.ArmInact(cfg, RxDispatch(cfg, old(txn.Abs()), pkt, env).st)
      ensures Abs() == Count(old(Abs()), RxDispatch(cfg, old(txn.Abs()), pkt, env))
    {
      hide Rx.Dispatch, WellFormed, RunRx;
      RxDispatchAgrees(cfg, txn.Abs(), pkt, env);
      if pkt.unacknowledged == txn.reliable {
        dropped := dropped + 1;
      } else if txn.phase == Rx.Hold {
        spurious := spurious + 1;
        if !pkt.pdu.IsFileData() && pkt.pdu.Directive() == DIR_EOF {
          handled := handled + 1;
        }
      } else if pkt.pdu.IsFileData() {
        if !IsError(txn.status) {
          handled := handled + 1;
        } else {
          dropped := dropped + 1;
        }
      } else if DIR_INVALID_MAX <= pkt.pdu.Directive() {
        spurious := spurious + 1;
      } else if RxEntry(txn.reliable, txn.data.sub, pkt.pdu.Directive()).Some? {
        handled := handled + 1;
      } else {
        ignored := ignored + 1;
      }
      txn.DispatchRecv(cfg, pkt, env);
    }
  }

  // ---------- holdover ----------

  // The header says class 2 only while the transaction is active, so whatever a
  // class 2 sender still sends in holdover, the acknowledgement of a repeated FIN
  // above all, is dropped by its class 2 receiver.
  lemma HoldoverRepliesDropped(cfg: Config, tx: Tx.Tx, rx: Rx.Rx, env: Rx.Env, pkt: Packet)
    requires 0 < rx.cap && rx.reliable && pkt in Tx.Maintain(cfg, tx, true).1 && Rx.Acceptable(pkt.pdu)
    ensures RxDispatch(cfg, rx, pkt, env).dropped == 1 <==> tx.phase != Tx.S2
    ensures tx.phase != Tx.S2 ==> RxDispatch(cfg, rx, pkt, env).st == rx
  {
    hide RunRx;
    MaintainSendsDirective(cfg, tx, pkt);
  }

  lemma MaintainSendsDirective(cfg: Config, tx: Tx.Tx, pkt: Packet)
    requires pkt in Tx.Maintain(cfg, tx, true).1
    ensures pkt.unacknowledged == (tx.phase != Tx.S2) && !pkt.pdu.IsFileData()
  {
  }

  // The other way round for a receiver in holdover: its EOF-ACK never counts.
  lemma HoldoverAckOfEofDropped(cfg: Config, rx: Rx.Rx, tx: Tx.Tx, pkt: Packet)
    requires 0 < rx.cap && Separated(rx.chunks) && 0 < tx.cap && tx.reliable
    requires pkt in Rx.Maintain(cfg, rx, true).1
    ensures TxDispatch(cfg, tx, pkt).dropped == 1 <==> rx.phase != Rx.R2
    ensures rx.phase != Rx.R2 ==> TxDispatch(cfg, tx, pkt).st == tx
  {
    hide RunTx, Separated, Rx.NakGaps, Rx.NakSegs;
  }

  // ---------- assertions the source makes when it sends ----------

  // CF_CFDP_SendNak asserts class 2. In every run of a receiver that is not
  // abandoned, whatever arrives and whether there are buffers or not, it holds.
  lemma NakOnlyInClass2(cfg: Config, unack: bool, list: Option<Handed>, stale: Status, createOk: bool,
                        previous: Option<seq<uint8>>, es: seq<RR.Event>, env: Rx.Env)
    requires Usable(list) && 0 < cfg.crcBlock
    requires forall k :: 0 <= k < |es| ==> RR.ValidEvent(es[k]) && !es[k].AbandonCmd?
    ensures var start := Rx.Setup(cfg, unack, list, stale, createOk, previous);
            && 0 < start.cap && WellFormed(start.cap, start.chunks)
            && var st := RR.Run(cfg, start, es);
               Separated(st.chunks) && forall p :: p in Rx.Tick(cfg, st, env).sent && p.pdu.Nak? ==> !p.unacknowledged
  {
    hide RR.Run, Rx.TickState, Rx.Maintain, Separated;
    RR.SetupList(cfg, unack, list, stale, createOk, previous);
    RR.RunNak(cfg, unack, list, stale, createOk, previous, es);
    var st := RR.Run(cfg, Rx.Setup(cfg, unack, list, stale, createOk, previous), es);
    ListSeparated(st);
    RR.TickNak(cfg, st, env);
    NakHeader(cfg, Rx.TickState(cfg, st, env), env.bufOk);
  }

  lemma ListSeparated(st: Rx.Rx)
    requires WellFormed(st.cap, st.chunks)
    ensures Separated(st.chunks)
  {
  }

  lemma NakHeader(cfg: Config, st: Rx.Rx, bufOk: bool)
    requires 0 < st.cap && Separated(st.chunks)
    ensures forall p :: p in Rx.Maintain(cfg, st, bufOk).1 ==> p.unacknowledged == (st.phase != Rx.R2)
  {
    hide Separated, Rx.NakGaps, Rx.NakSegs, ToConditionCode;
  }

  // Something to ask for, and nothing that goes first.
  ghost predicate AsksNext(st: Rx.Rx)
    requires 0 < st.cap && Separated(st.chunks)
  {
    && st.flags.sendNak && !(st.reliable && st.flags.eofAckCount != st.flags.eofCount)
    && (!st.flags.mdRecv || Rx.NakGaps(st.cap, st.chunks, st.fsize) != [])
  }

  // After an abandon it fails exactly if a request was due that has gaps to name.
  lemma AbandonedNakIff(cfg: Config, unack: bool, list: Option<Handed>, stale: Status, createOk: bool,
                        previous: Option<seq<uint8>>, es: seq<RR.Event>, env: Rx.Env)
    requires Usable(list) && 0 < cfg.crcBlock
    requires forall k :: 0 <= k < |es| ==> RR.ValidEvent(es[k]) && !es[k].AbandonCmd?
    ensures var start := Rx.Setup(cfg, unack, list, stale, createOk, previous);
            && 0 < start.cap && WellFormed(start.cap, start.chunks)
            && var st := RR.Run(cfg, start, es);
               var abandoned := Rx.Finish(cfg, st);
               && Separated(st.chunks)
               && ((exists p :: p in Rx.Tick(cfg, abandoned, env).sent && p.pdu.Nak? && p.unacknowledged) <==>
                     env.bufOk && AsksNext(st))
  {
    hide RR.Run, Rx.Tick, Separated, Rx.Finish, AsksNext;
    RR.SetupList(cfg, unack, list, stale, createOk, previous);
    var st := RR.Run(cfg, Rx.Setup(cfg, unack, list, stale, createOk, previous), es);
    ListSeparated(st);
    AbandonedAsks(cfg, st, env);
  }

  lemma AbandonedAsks(cfg: Config, st: Rx.Rx, env: Rx.Env)
    requires 0 < st.cap && Separated(st.chunks) && 0 < cfg.crcBlock
    ensures (exists p :: p in Rx.Tick(cfg, Rx.Finish(cfg, st), env).sent && p.pdu.Nak? && p.unacknowledged) <==>
              env.bufOk && AsksNext(st)
  {
    hide Separated, Rx.NakGaps, Rx.NakSegs, ToConditionCode;
    var abandoned := Rx.Finish(cfg, st);
    RR.IdleTick(cfg, abandoned, env);
    var sent := Rx.Tick(cfg, abandoned, env).sent;
    if sent != [] {
      assert sent == [sent[0]];
      assert sent[0] in sent;
    }
  }

  // Such a run: an EOF without metadata, one wakeup, and the abandon.
  lemma AbandonedNakRun(cfg: Config, list: Handed, previous: Option<seq<uint8>>, env: Rx.Env)
    requires list.Proper() && 0 < cfg.crcBlock && 0 < cfg.ackLimit && env.bufOk
    ensures var start := Rx.Setup(cfg, false, Some(list), ST_NO_ERROR, true, previous);
            var es := [RR.Arrive(Packet(false, Eof(0, 0, 0)), env), RR.Wakeup(env)];
            && WellFormed(start.cap, start.chunks)
            && var st := RR.Run(cfg, start, es);
               && Separated(st.chunks)
               && Rx.Tick(cfg, Rx.Finish(cfg, st), env).sent == [Packet(true, Nak([Seg(0, 0)]))]
  {
    hide Separated, Rx.NakGaps, Rx.NakSegs;
    var start := Rx.Setup(cfg, false, Some(list), ST_NO_ERROR, true, previous);
    var es := [RR.Arrive(Packet(false, Eof(0, 0, 0)), env), RR.Wakeup(env)];
    RR.SetupList(cfg, false, Some(list), ST_NO_ERROR, true, previous);
    assert es[..1] == [es[0]] && es[..1][..0] == [];
    var a := RR.Run(cfg, start, es[..1]);
    assert RR.Run(cfg, start, []) == start;
    assert a == RR.Step(cfg, start, es[0]);
    ListSeparated(start);
    assert a == Rx.Recv(cfg, start, Packet(false, Eof(0, 0, 0)), env);
    HasEof(cfg, start, env);
    var b := RR.Run(cfg, start, es);
    assert b == RR.Step(cfg, a, es[1]);
    hide RR.Run;
    AsksForMetadata(cfg, a, env);
  }

  lemma HasEof(cfg: Config, st: Rx.Rx, env: Rx.Env)
    requires 0 < st.cap && st.phase == Rx.R2 && st.reliable && st.Ok() && st.data.sub == Rx.DataNormal
    requires 0 < cfg.ackLimit
    requires st.flags.eofCount == 0 && st.flags.eofAckCount == 0 && !st.flags.mdRecv && !st.com.inactFired
    ensures var t := Rx.Recv(cfg, st, Packet(false, Eof(0, 0, 0)), env);
            && t.phase == Rx.R2 && t.reliable && t.Ok() && t.data.sub == Rx.DataNormal && t.chunks == st.chunks
            && t.cap == st.cap
            && t.flags.eofCount == 1 && t.flags.eofAckCount == 0 && !t.flags.mdRecv
  {
  }

  lemma AsksForMetadata(cfg: Config, st: Rx.Rx, env: Rx.Env)
    requires 0 < st.cap && Separated(st.chunks) && 0 < cfg.crcBlock && env.bufOk
    requires st.phase == Rx.R2 && st.reliable && st.data.sub == Rx.DataNormal
    requires st.flags.eofCount == 1 && st.flags.eofAckCount == 0 && !st.flags.mdRecv
    ensures var t := Rx.Tick(cfg, st, env).rx;
            && Separated(t.chunks) && t.cap == st.cap
            && Rx.Tick(cfg, Rx.Finish(cfg, t), env).sent == [Packet(true, Nak([Seg(0, 0)]))]
  {
    hide Separated, Rx.Tick;
    RR.TickKeepsList(cfg, st, env);
    RequestDue(cfg, st, env);
    HeldOverAsks(cfg, Rx.Tick(cfg, st, env).rx, env);
  }

  // What makes a request due, with the EOF noted `acked` times.
  predicate AsksMetadata(st: Rx.Rx, sub: Rx.Sub, acked: nat) {
    && st.phase == Rx.R2 && st.reliable && st.data.sub == sub
    && st.flags.eofCount == 1 && st.flags.eofAckCount == acked && !st.flags.mdRecv
  }

  lemma RequestDue(cfg: Config, st: Rx.Rx, env: Rx.Env)
    requires 0 < st.cap && Separated(st.chunks) && 0 < cfg.crcBlock && env.bufOk && AsksMetadata(st, Rx.DataNormal, 0)
    ensures var t := Rx.Tick(cfg, st, env).rx;
            t.flags.sendNak && !t.flags.mdRecv && t.flags.eofAckCount == t.flags.eofCount
  {
    hide Separated, Rx.InactivityTick, Rx.AckTimerTick, Rx.CheckState, Rx.Maintain, AsksMetadata;
    var b := Rx.AckTimerTick(Rx.InactivityTick(st));
    RR.TimersTimed(st);
    TimedAsks(st, Rx.InactivityTick(st));
    TimedAsks(st, b);
    CheckAsks(cfg, b, env);
    MaintainAcks(cfg, Rx.CheckState(cfg, b, env));
    ActiveAsks(st);
  }

  lemma ActiveAsks(st: Rx.Rx)
    requires AsksMetadata(st, Rx.DataNormal, 0)
    ensures st.Active()
  {
  }

  lemma TimedAsks(st: Rx.Rx, t: Rx.Rx)
    requires AsksMetadata(st, Rx.DataNormal, 0) && RR.Timed(st, t)
    ensures AsksMetadata(t, Rx.DataNormal, 0) && t.chunks == st.chunks && t.cap == st.cap
  {
  }

  lemma CheckAsks(cfg: Config, st: Rx.Rx, env: Rx.Env)
    requires Separated(st.chunks) && 0 < cfg.crcBlock && AsksMetadata(st, Rx.DataNormal, 0)
    ensures var t := Rx.CheckState(cfg, st, env);
            AsksMetadata(t, Rx.DataEof, 0) && t.flags.sendNak && t.chunks == st.chunks && t.cap == st.cap
  {
    hide Separated;
  }

  lemma MaintainAcks(cfg: Config, st: Rx.Rx)
    requires 0 < st.cap && Separated(st.chunks) && AsksMetadata(st, Rx.DataEof, 0) && st.flags.sendNak
    ensures var t := Rx.Maintain(cfg, st, true).0;
            t.flags.sendNak && !t.flags.mdRecv && t.flags.eofAckCount == t.flags.eofCount
  {
    hide Separated, Rx.NakGaps, Rx.NakSegs;
  }

  lemma HeldOverAsks(cfg: Config, st: Rx.Rx, env: Rx.Env)
    requires 0 < st.cap && Separated(st.chunks) && 0 < cfg.crcBlock && env.bufOk
    requires st.flags.sendNak && !st.flags.mdRecv && st.flags.eofAckCount == st.flags.eofCount
    ensures Rx.Tick(cfg, Rx.Finish(cfg, st), env).sent == [Packet(true, Nak([Seg(0, 0)]))]
  {
    hide Separated, Rx.NakGaps, Rx.NakSegs;
    RR.IdleTick(cfg, Rx.Finish(cfg, st), env);
  }

  // CF_CFDP_SendMd asserts an active sender. It fails in exactly the wakeups that
  // find a buffer and metadata due in holdover or in FILESTORE, which holdover
  // follows in the same wakeup.
  lemma MetadataInHoldoverIff(cfg: Config, st: Tx.Tx, env: Tx.Env)
    ensures var r := Tx.Tick(cfg, st, env);
            (exists p :: p in r.sent && p.pdu.Metadata? && !r.tx.Active()) <==>
              env.bufOk && st.flags.sendMd && (!st.Active() || st.data.sub == Tx.FileStore)
  {
    hide Tx.InactivityTick, Tx.AckTimerTick, Tx.CheckState, Tx.Maintain;
    var b := Tx.AckTimerTick(Tx.InactivityTick(st));
    TxRuns.TimersWake(st);
    TimersPhase(st);
    CheckPhase(cfg, b, env);
    MaintainMetadata(cfg, Tx.TickState(cfg, st, env), env.bufOk);
  }

  lemma TimersPhase(st: Tx.Tx)
    ensures Tx.AckTimerTick(Tx.InactivityTick(st)).phase == st.phase && Tx.InactivityTick(st).phase == st.phase
  {
  }

  lemma CheckPhase(cfg: Config, st: Tx.Tx, env: Tx.Env)
    ensures var t := Tx.CheckState(cfg, st, env);
            && t.flags.sendMd == st.flags.sendMd
            && (t.Active() <==> st.Active() && st.data.sub != Tx.FileStore)
  {
    hide Tx.Check, Tx.Enter;
    DecisionPhase(cfg, st, env);
    EnterPhase(cfg, Tx.Check(cfg, st, env).0, Tx.Check(cfg, st, env).1);
  }

  lemma DecisionPhase(cfg: Config, st: Tx.Tx, env: Tx.Env)
    ensures var (a, next) := Tx.Check(cfg, st, env);
            && a.flags.sendMd == st.flags.sendMd && a.phase == st.phase
            && (next == Tx.Complete <==> st.data.sub == Tx.FileStore || st.data.sub == Tx.Complete)
  {
  }

  lemma EnterPhase(cfg: Config, st: Tx.Tx, next: Tx.Sub)
    ensures var t := Tx.Enter(cfg, st, next);
            t.flags.sendMd == st.flags.sendMd && t.phase == (if next == Tx.Complete then Tx.Hold else st.phase)
  {
    hide Finalize;
  }

  lemma MaintainMetadata(cfg: Config, st: Tx.Tx, bufOk: bool)
    ensures var (t, sent) := Tx.Maintain(cfg, st, bufOk);
            t.phase == st.phase && ((exists p :: p in sent && p.pdu.Metadata?) <==> bufOk && st.flags.sendMd)
  {
    hide ToConditionCode;
    var sent := Tx.Maintain(cfg, st, bufOk).1;
    if sent != [] {
      assert sent == [sent[0]];
      assert sent[0] in sent;
    }
  }

  // Such a run needs no command: an early FIN, two wakeups without a buffer, and one
  // with a buffer, which sends the first metadata in holdover.
  lemma MetadataInHoldoverRun(cfg: Config, src: seq<uint8>, list: Handed, none: Tx.Env, some: Tx.Env)
    requires list.Proper() && src != [] && !none.bufOk && some.bufOk
    ensures var start := Tx.Start(cfg, true, false, true, |src|, list, ST_NO_ERROR, 0, 0);
            var es := [TxRuns.Arrive(Packet(false, Fin(0, 0, 0))), TxRuns.Wakeup(none), TxRuns.Wakeup(none),
              TxRuns.Wakeup(some)];
            TxRuns.Run(cfg, start, src, es).1 == [Packet(true, Metadata(false, |src|, 0, 0))]
  {
    hide TxRuns.Step, TxRuns.Run;
    var start := Tx.Start(cfg, true, false, true, |src|, list, ST_NO_ERROR, 0, 0);
    var a := TxRuns.Step(cfg, start, src, TxRuns.Arrive(Packet(false, Fin(0, 0, 0)))).0;
    EarlyFinStep(cfg, start, src);
    var b := TxRuns.Step(cfg, a, src, TxRuns.Wakeup(none)).0;
    EarlyFinStores(cfg, a, src, none);
    var c := TxRuns.Step(cfg, b, src, TxRuns.Wakeup(none)).0;
    StoresToHold(cfg, b, src, none);
    HoldSendsMetadata(cfg, c, src, some);
    var d := TxRuns.Step(cfg, c, src, TxRuns.Wakeup(some)).0;
    RunOne(cfg, c, src, TxRuns.Wakeup(some));
    RunTwo(cfg, b, src, TxRuns.Wakeup(none), [TxRuns.Wakeup(some)]);
    RunTwo(cfg, a, src, TxRuns.Wakeup(none), [TxRuns.Wakeup(none), TxRuns.Wakeup(some)]);
    RunTwo(cfg, start, src, TxRuns.Arrive(Packet(false, Fin(0, 0, 0))),
           [TxRuns.Wakeup(none), TxRuns.Wakeup(none), TxRuns.Wakeup(some)]);
    assert [TxRuns.Arrive(Packet(false, Fin(0, 0, 0)))]
           + [TxRuns.Wakeup(none), TxRuns.Wakeup(none), TxRuns.Wakeup(some)]
        == [TxRuns.Arrive(Packet(false, Fin(0, 0, 0))), TxRuns.Wakeup(none), TxRuns.Wakeup(none), TxRuns.Wakeup(some)];
    assert [TxRuns.Wakeup(none)] + [TxRuns.Wakeup(none), TxRuns.Wakeup(some)]
        == [TxRuns.Wakeup(none), TxRuns.Wakeup(none), TxRuns.Wakeup(some)];
    assert [TxRuns.Wakeup(none)] + [TxRuns.Wakeup(some)] == [TxRuns.Wakeup(none), TxRuns.Wakeup(some)];
  }

  lemma RunOne(cfg: Config, st: Tx.Tx, src: seq<uint8>, e: TxRuns.Event)
    requires 0 < st.cap
    ensures TxRuns.Run(cfg, st, src, [e]).1 == TxRuns.Step(cfg, st, src, e).1
  {
    hide TxRuns.Step;
    TxRuns.StepKeepsRoom(cfg, st, src, e);
    assert [e][1..] == [];
  }

  lemma RunTwo(cfg: Config, st: Tx.Tx, src: seq<uint8>, e: TxRuns.Event, es: seq<TxRuns.Event>)
    requires 0 < st.cap
    ensures var (t, sent) := TxRuns.Step(cfg, st, src, e);
            0 < t.cap && TxRuns.Run(cfg, st, src, [e] + es).1 == sent + TxRuns.Run(cfg, t, src, es).1
  {
    hide TxRuns.Step;
    TxRuns.StepKeepsRoom(cfg, st, src, e);
    assert ([e] + es)[1..] == es && ([e] + es)[0] == e;
  }

  // Waiting for its metadata, with an error.
  ghost predicate Failed(st: Tx.Tx, size: nat) {
    && 0 < st.cap && st.reliable && !st.Ok() && st.flags.sendMd && st.fsize == size && st.foffs == 0
    && !st.com.closeReq && st.srcLen == 0 && st.dstLen == 0
  }

  lemma EarlyFinStep(cfg: Config, st: Tx.Tx, src: seq<uint8>)
    requires 0 < st.cap && src != []
    requires st == Tx.Start(cfg, true, false, true, |src|, Handed(st.cap, st.chunks), ST_NO_ERROR, 0, 0)
    ensures var (t, sent) := TxRuns.Step(cfg, st, src, TxRuns.Arrive(Packet(false, Fin(0, 0, 0))));
            Failed(t, |src|) && t.phase == Tx.S2 && t.data.sub == Tx.DataNormal && sent == []
  {
  }

  lemma EarlyFinStores(cfg: Config, st: Tx.Tx, src: seq<uint8>, none: Tx.Env)
    requires src != [] && Failed(st, |src|) && st.phase == Tx.S2 && st.data.sub == Tx.DataNormal && !none.bufOk
    ensures var (t, sent) := TxRuns.Step(cfg, st, src, TxRuns.Wakeup(none));
            Failed(t, |src|) && t.phase == Tx.S2 && t.data.sub == Tx.FileStore && sent == []
  {
    hide Tx.InactivityTick, Tx.AckTimerTick, Tx.CheckState;
    FailedTimers(st, |src|);
    FailedCheck(cfg, Tx.AckTimerTick(Tx.InactivityTick(st)), |src|, none);
  }

  lemma StoresToHold(cfg: Config, st: Tx.Tx, src: seq<uint8>, none: Tx.Env)
    requires src != [] && Failed(st, |src|) && st.phase == Tx.S2 && st.data.sub == Tx.FileStore && !none.bufOk
    ensures var (t, sent) := TxRuns.Step(cfg, st, src, TxRuns.Wakeup(none));
            Failed(t, |src|) && t.phase == Tx.Hold && sent == []
  {
    hide Tx.InactivityTick, Tx.AckTimerTick, Tx.CheckState;
    FailedTimers(st, |src|);
    FailedCheck(cfg, Tx.AckTimerTick(Tx.InactivityTick(st)), |src|, none);
  }

  lemma FailedTimers(st: Tx.Tx, size: nat)
    requires Failed(st, size)
    ensures var b := Tx.AckTimerTick(Tx.InactivityTick(st));
            Failed(b, size) && b.phase == st.phase && b.data == st.data
  {
  }

  lemma FailedCheck(cfg: Config, st: Tx.Tx, size: nat, env: Tx.Env)
    requires 0 < size && Failed(st, size) && st.phase == Tx.S2
    requires st.data.sub == Tx.DataNormal || st.data.sub == Tx.FileStore
    ensures var t := Tx.CheckState(cfg, st, env);
            && Failed(t, size)
            && (if st.data.sub == Tx.DataNormal then t.phase == Tx.S2 && t.data.sub == Tx.FileStore
                else t.phase == Tx.Hold)
  {
  }

  lemma HoldSendsMetadata(cfg: Config, st: Tx.Tx, src: seq<uint8>, some: Tx.Env)
    requires Failed(st, |src|) && st.phase == Tx.Hold && some.bufOk
    ensures TxRuns.Step(cfg, st, src, TxRuns.Wakeup(some)).1 == [Packet(true, Metadata(false, |src|, 0, 0))]
  {
  }
}
