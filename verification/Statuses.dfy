/** What one end tells the other about how the transfer went, from its status to the status of the peer. */
module Statuses {
  import opened Cfdp
  import opened Crc
  import opened ChunkSpec
  import Codec
  import W = Wire
  import Rx = RxSpec
  import RR = RxRuns
  import RP = RxReports
  import RA = RxAnswers
  import Tx = TxSpec
  import TR = TxRuns
  import TP = TxReports

  // What a clean transaction makes of a status told by its peer, as `code` or not at all.
  ghost predicate Tells(told: Status, status: Status) {
    && (IsConditionCode(told) ==> status == told)
    && (told == ST_ACK_LIMIT_NO_FIN || told == ST_ACK_LIMIT_NO_EOF ==> status == ST_INACTIVITY_DETECTED)
    && (IsError(told) && !IsConditionCode(told) && told != ST_ACK_LIMIT_NO_FIN && told != ST_ACK_LIMIT_NO_EOF ==>
          status == ST_CANCEL_REQUEST_RECEIVED)
    && (IsError(status) <==> IsError(told))
  }

  // A FIN on its way: sent by any receiver in any wakeup, encoded into a buffer that has
  // room for it, decoded from the octets, and the first one its sender takes, clean and
  // past its EOF. The status of the sender is then the one the receiver had.
  lemma FinTellsStatus(cfg: Config, rx: Rx.Rx, env: Rx.Env, p: Packet, buf: seq<uint8>, route: W.Route, x: W.Extras,
                       peer: Config, tx: Tx.Tx, src: seq<uint8>)
    requires RP.Steady(cfg, rx) && Separated(rx.chunks) && RP.Accounted(rx)
    requires p in Rx.Tick(cfg, rx, env).sent && p.pdu.Fin?
    requires Codec.AllTyped(x.tlvs) && |x.tlvs| <= Codec.MAX_TLV && |buf| <= 0x1_0000
    requires 0 < tx.cap && TP.TakesFin(tx, p) && tx.flags.finCount == 0 && tx.Ok() && !TP.Early(tx)
    requires 0 < peer.ackLimit
    ensures W.Proper(p.pdu, x)
    ensures var (c, octets) := W.EncodePacket(buf, route, p, x);
            c.valid ==>
              && W.DecodePacket(octets) == W.Received(route, p)
              && Tells(Rx.Tick(cfg, rx, env).rx.status,
                       TR.Step(peer, tx, src, TR.Arrive(W.DecodePacket(octets).pkt)).0.status)
  {
    hide Rx.Tick, RP.Accounted, RP.Steady, TR.Step, W.EncodePacket, W.DecodePacket, ToConditionCode, Tells;
    hide RP.Disposed, TP.TakesFin, TP.Early;
    RP.ListSound(cfg, rx);
    var s := Rx.Tick(cfg, rx, env).rx.status;
    RP.TickAccounts(cfg, rx, env);
    ConditionCodeFaithful(s);
    W.PacketSurvivesIff(buf, route, p, x);
    TP.FirstFinNoted(peer, tx, src, p);
    CodeTells(s);
  }

  lemma CodeTells(s: Status)
    ensures ToConditionCode(s) < 16 && ToConditionCode(s) % 16 == ToConditionCode(s) && Tells(s, ToConditionCode(s))
  {
    ConditionCodeFaithful(s);
  }

  // Each EOF names the status, the checksum and the size its sender has.
  lemma EofSays(cfg: Config, tx: Tx.Tx, env: Tx.Env)
    ensures var r := Tx.Tick(cfg, tx, env);
            forall p :: p in r.sent && p.pdu.Eof? ==>
                          p.pdu == Eof(ToConditionCode(r.tx.status), r.tx.crc.result, r.tx.fsize)
  {
    hide Tx.TickState, ToConditionCode;
  }

  // An EOF on its way, in the same manner: the first one its receiver takes.
  lemma EofTellsStatus(cfg: Config, tx: Tx.Tx, env: Tx.Env, p: Packet, buf: seq<uint8>, route: W.Route, x: W.Extras,
                       peer: Config, rx: Rx.Rx, arrival: Rx.Env)
    requires p in Tx.Tick(cfg, tx, env).sent && p.pdu.Eof?
    requires W.Proper(p.pdu, x) && |buf| <= 0x1_0000
    requires RP.Steady(peer, rx) && RA.TakesEof(rx, RR.Arrive(p, arrival)) && rx.flags.eofCount == 0 && rx.Ok()
    requires 0 < peer.ackLimit
    ensures Separated(rx.chunks)
    ensures var (c, octets) := W.EncodePacket(buf, route, p, x);
            c.valid ==>
              && W.DecodePacket(octets) == W.Received(route, p)
              && var t := RR.Step(peer, rx, RR.Arrive(W.DecodePacket(octets).pkt, arrival));
                 && Tells(Tx.Tick(cfg, tx, env).tx.status, t.status)
                 && t.data.eofCrc == Tx.Tick(cfg, tx, env).tx.crc.result
                 && t.data.eofSize == Tx.Tick(cfg, tx, env).tx.fsize
  {
    hide Tx.Tick, RP.Steady, RR.Step, W.EncodePacket, W.DecodePacket, ToConditionCode, Tells, RA.TakesEof;
    EofSays(cfg, tx, env);
    CodeTells(Tx.Tick(cfg, tx, env).tx.status);
    W.PacketSurvivesIff(buf, route, p, x);
    RP.ListSound(peer, rx);
    RA.FirstEofNoted(peer, rx, RR.Arrive(p, arrival));
  }
}
