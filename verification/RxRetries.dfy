/** How often and for how long a class 2 receiver repeats a NAK or its FIN when nobody answers. */
module RxRetries {
  import opened Cfdp
  import opened Crc
  import opened ChunkSpec
  import Gaps
  import opened RxSpec
  import opened RxRuns

  function RetriesLeft(cfg: Config, st: Rx): nat {
    if st.data.acknak < cfg.ackLimit then cfg.ackLimit - st.data.acknak else 0
  }

  // Ticks until the receiver gives up, with a request or a FIN due or not.
  function TicksLeft(cfg: Config, st: Rx, due: bool): nat {
    RetryTicks(cfg, RetriesLeft(cfg, st)) + 1 +
    (if due then cfg.ackTicks + 1 else if st.com.ackArmed then st.ackTimer else 0)
  }

  function SendsLeft(cfg: Config, st: Rx, due: bool): nat { (if due then 1 else 0) + RetriesLeft(cfg, st) }

  // Packets that ask or report, and not the EOF-ACK.
  function Sends(ps: seq<Packet>): nat {
    if ps == [] then 0 else (if ps[0].pdu.Nak? || ps[0].pdu.Fin? then 1 else 0) + Sends(ps[1..])
  }

  // The wakeups in which a NAK or a FIN goes out, the first one being `at`.
  function SendTimes(cfg: Config, st: Rx, envs: seq<Env>, at: nat): seq<nat>
    requires 0 < st.cap && Separated(st.chunks) && 0 < cfg.crcBlock
    decreases |envs|
  {
    if envs == [] then []
    else
      TickKeepsList(cfg, st, envs[0]);
      var r := Tick(cfg, st, envs[0]);
      (if Sends(r.sent) != 0 then [at] else []) + SendTimes(cfg, r.rx, envs[1..], at + 1)
  }

  // Wakeups before the next NAK or FIN goes out, if the limit allows another one.
  function Until(st: Rx, due: bool): nat { if !due && st.com.ackArmed then st.ackTimer else 0 }

  // How a wakeup moves the next one and the number of those left.
  predicate OnTime(cfg: Config, st: Rx, stDue: bool, t: Rx, tDue: bool, sends: nat) {
    && SendsLeft(cfg, st, stDue) == sends + SendsLeft(cfg, t, tDue)
    && (if sends == 0 then SendsLeft(cfg, t, tDue) == 0 || Until(st, stDue) == Until(t, tDue) + 1
        else sends == 1 && Until(st, stDue) == 0 && Until(t, tDue) == cfg.ackTicks)
  }

  lemma {:induction false} SendsConcat(a: seq<Packet>, b: seq<Packet>)
    ensures Sends(a + b) == Sends(a) + Sends(b)
  {
    if a == [] {
      assert a + b == b;
    } else {
      assert (a + b)[1..] == a[1..] + b;
      SendsConcat(a[1..], b);
    }
  }

  lemma OneSend(ps: seq<Packet>)
    ensures |ps| == 1 && (ps[0].pdu.Nak? || ps[0].pdu.Fin?) ==> Sends(ps) == 1
    ensures ps == [] ==> Sends(ps) == 0
  {
    if |ps| == 1 {
      assert ps[1..] == [];
    }
  }

  // ---------- the two waits ----------

  ghost predicate Quietly(st: Rx) {
    && st.phase == R2 && st.reliable && !st.com.inactFired && st.flags.eofAckCount == st.flags.eofCount
  }

  // Data or the metadata are missing, and there is something to ask for.
  ghost predicate Missing(st: Rx)
    requires 0 < st.cap && Separated(st.chunks)
  {
    && !CheckComplete(st.(flags := st.flags.(sendNak := false)))
    && (st.flags.mdRecv ==> NakGaps(st.cap, st.chunks, st.fsize) != [])
  }

  ghost predicate Asking(cfg: Config, st: Rx)
    requires 0 < st.cap && Separated(st.chunks)
  {
    && Quietly(st) && st.data.sub == DataEof && st.Ok() && !st.flags.sendFin && st.data.acknak <= cfg.ackLimit
    && Missing(st)
  }

  ghost predicate Reporting(cfg: Config, st: Rx) {
    && Quietly(st) && st.data.sub == FinAck && !st.flags.finAckRecv && !st.flags.sendNak
    && st.data.acknak <= cfg.ackLimit
  }

  // The timers in front of the state check.
  lemma TimersWait(st: Rx)
    requires Quietly(st) && 0 < st.inactTimer
    ensures var b := AckTimerTick(InactivityTick(st));
            && Quietly(b) && b.inactTimer == st.inactTimer - 1 && b.data == st.data && b.flags == st.flags
            && b.status == st.status && b.fsize == st.fsize && b.cap == st.cap && b.chunks == st.chunks
            && b.com.ackArmed == (st.com.ackArmed && st.ackTimer != 0)
            && (b.com.ackArmed ==> b.ackTimer == st.ackTimer - 1)
  {
  }

  // ---------- the NAK ----------

  lemma CheckAsking(cfg: Config, st: Rx, env: Env)
    requires 0 < st.cap && Separated(st.chunks) && 0 < cfg.crcBlock && Asking(cfg, st)
    ensures var t := CheckState(cfg, st, env);
            && t.inactTimer == st.inactTimer && t.cap == st.cap && t.chunks == st.chunks && Quietly(t)
            && (if st.flags.sendNak || st.com.ackArmed then t == st
                else if st.data.acknak < cfg.ackLimit then
                  Asking(cfg, t) && t.flags.sendNak && t.data.acknak == st.data.acknak + 1
                else
                  t.status == ST_NAK_LIMIT_REACHED && t.data.sub == FileStore && !t.flags.sendNak && !t.flags.sendFin)
  {
    hide NakGaps, Gaps.Reported, Separated;
  }

  lemma MaintainAsking(cfg: Config, st: Rx)
    requires 0 < st.cap && Separated(st.chunks) && Quietly(st) && !st.flags.sendFin
    requires st.flags.sendNak ==> Missing(st)
    ensures var (t, sent) := Maintain(cfg, st, true);
            && t.inactTimer == st.inactTimer && t.cap == st.cap && t.chunks == st.chunks
            && t.data == st.data && t.status == st.status
            && (if st.flags.sendNak then
                  (Asking(cfg, st) ==> Asking(cfg, t)) && !t.flags.sendNak && t.com.ackArmed &&
                    t.ackTimer == cfg.ackTicks
                  && |sent| == 1 && sent[0].pdu.Nak?
                else t == st && sent == [])
  {
    hide NakGaps, NakSegs, Gaps.Reported, Separated;
  }

  lemma AskingTick(cfg: Config, st: Rx, env: Env)
    requires 0 < st.cap && Separated(st.chunks) && 0 < cfg.crcBlock && Asking(cfg, st) && 0 < st.inactTimer && env.bufOk
    ensures var r := Tick(cfg, st, env);
            && r.rx.inactTimer == st.inactTimer - 1 && r.rx.cap == st.cap && r.rx.chunks == st.chunks
            && (if Asking(cfg, r.rx) then
                  TicksLeft(cfg, st, st.flags.sendNak) == 1 + TicksLeft(cfg, r.rx, r.rx.flags.sendNak)
                  && OnTime(cfg, st, st.flags.sendNak, r.rx, r.rx.flags.sendNak, Sends(r.sent))
                else
                  TicksLeft(cfg, st, st.flags.sendNak) == 1
                  && SendsLeft(cfg, st, st.flags.sendNak) == Sends(r.sent) == 0
                  && r.rx.status == ST_NAK_LIMIT_REACHED && r.rx.data.sub == FileStore)
  {
    hide InactivityTick, AckTimerTick, CheckState, Maintain, CheckComplete, NakGaps, Separated;
    var b := AckTimerTick(InactivityTick(st));
    var c := TickState(cfg, st, env);
    TimersWait(st);
    StillMissing(st, b);
    CheckAsking(cfg, b, env);
    MaintainAsking(cfg, c);
    OneSend(Maintain(cfg, c, true).1);
  }

  lemma StillMissing(st: Rx, b: Rx)
    requires 0 < st.cap && Separated(st.chunks) && Missing(st)
    requires b.flags == st.flags && b.fsize == st.fsize && b.cap == st.cap && b.chunks == st.chunks
    ensures Missing(b)
  {
    hide NakGaps, Separated, Gaps.Reported;
  }

  // With nothing arriving, a receiver that lacks data asks exactly as often as the
  // limit allows, one full ack timer apart, and gives up exactly one ack timer after
  // the last time, if the inactivity timer does not end the wait before.
  lemma {:induction false} NakRepeats(cfg: Config, st: Rx, envs: seq<Env>, at: nat)
    requires 0 < st.cap && Separated(st.chunks) && 0 < cfg.crcBlock && Asking(cfg, st)
    requires |envs| == TicksLeft(cfg, st, st.flags.sendNak) <= st.inactTimer
    requires forall i :: 0 <= i < |envs| ==> envs[i].bufOk
    ensures var (t, sent) := Ticks(cfg, st, envs);
            && Sends(sent) == SendsLeft(cfg, st, st.flags.sendNak)
            && SendTimes(cfg, st, envs, at)
                 == Every(at + Until(st, st.flags.sendNak), cfg.ackTicks + 1, SendsLeft(cfg, st, st.flags.sendNak))
            && t.status == ST_NAK_LIMIT_REACHED && t.data.sub == FileStore
    decreases |envs|
  {
    hide Tick, Asking, SendsLeft, TicksLeft, Sends, Separated, Until;
    AtLeastOne(cfg, st, st.flags.sendNak);
    var r := Tick(cfg, st, envs[0]);
    AskingTick(cfg, st, envs[0]);
    SendsConcat(r.sent, Ticks(cfg, r.rx, envs[1..]).1);
    if Asking(cfg, r.rx) {
      NakRepeats(cfg, r.rx, envs[1..], at + 1);
    } else {
      OneSend([]);
    }
  }

  // ---------- what the NAKs of a wait name ----------

  lemma MaintainNames(cfg: Config, st: Rx, bufOk: bool)
    requires 0 < st.cap && Separated(st.chunks) && st.flags.mdRecv
    ensures forall p :: p in Maintain(cfg, st, bufOk).1 && p.pdu.Nak? ==>
              p.pdu == Nak(NakSegs(cfg, st.cap, st.chunks, st.fsize))
    ensures Maintain(cfg, st, bufOk).0.fsize == st.fsize && Maintain(cfg, st, bufOk).0.flags.mdRecv
  {
    hide NakGaps, NakSegs, Separated, ToConditionCode;
  }

  lemma TickNames(cfg: Config, st: Rx, env: Env)
    requires 0 < st.cap && Separated(st.chunks) && 0 < cfg.crcBlock && st.flags.mdRecv
    ensures var r := Tick(cfg, st, env);
            && r.rx.fsize == st.fsize && r.rx.flags.mdRecv
            && forall p :: p in r.sent && p.pdu.Nak? ==> p.pdu == Nak(NakSegs(cfg, st.cap, st.chunks, st.fsize))
  {
    hide InactivityTick, AckTimerTick, CheckState, Maintain, NakSegs, Separated;
    TimersTimed(st);
    CheckKeepsNotes(cfg, AckTimerTick(InactivityTick(st)), env);
    MaintainNames(cfg, TickState(cfg, st, env), env.bufOk);
  }

  // With nothing arriving, every NAK asks for the same.
  lemma {:induction false} SameRequests(cfg: Config, st: Rx, envs: seq<Env>)
    requires 0 < st.cap && Separated(st.chunks) && 0 < cfg.crcBlock && st.flags.mdRecv
    ensures forall p :: p in Ticks(cfg, st, envs).1 && p.pdu.Nak? ==>
            p.pdu == Nak(NakSegs(cfg, st.cap, st.chunks, st.fsize))
    decreases |envs|
  {
    if envs != [] {
      hide Tick, Separated, NakSegs;
      TickKeepsList(cfg, st, envs[0]);
      TickNames(cfg, st, envs[0]);
      SameRequests(cfg, Tick(cfg, st, envs[0]).rx, envs[1..]);
    }
  }

  lemma AtLeastOne(cfg: Config, st: Rx, due: bool)
    ensures 0 < TicksLeft(cfg, st, due)
  {
  }

  // ---------- the FIN ----------

  lemma CheckReporting(cfg: Config, st: Rx, env: Env)
    requires Separated(st.chunks) && 0 < cfg.crcBlock && Reporting(cfg, st)
    ensures var t := CheckState(cfg, st, env);
            && t.cap == st.cap && t.chunks == st.chunks && t.data.finDc == st.data.finDc
            && t.data.finFs == st.data.finFs
            && t.status == st.status && !t.flags.sendNak && t.reliable && t.flags.eofAckCount == t.flags.eofCount
            && (if st.flags.sendFin || st.com.ackArmed then t == st
                else if st.data.acknak < cfg.ackLimit then
                  Reporting(cfg, t) && t.flags.sendFin && t.data.acknak == st.data.acknak + 1 &&
                    t.inactTimer == st.inactTimer
                else t.phase == Hold && t.data.sub == Complete && !t.flags.sendFin)
  {
    hide Separated;
  }

  lemma MaintainReporting(cfg: Config, st: Rx)
    requires 0 < st.cap && Separated(st.chunks) && st.reliable && st.flags.eofAckCount == st.flags.eofCount
    requires !st.flags.sendNak
    ensures var (t, sent) := Maintain(cfg, st, true);
            && t.inactTimer == st.inactTimer && t.cap == st.cap && t.chunks == st.chunks && t.status == st.status
            && t.data == st.data && t.phase == st.phase
            && (if st.flags.sendFin then
                  (Reporting(cfg, st) ==> Reporting(cfg, t)) && !t.flags.sendFin && t.com.ackArmed &&
                    t.ackTimer == cfg.ackTicks
                  && sent == [Outgoing(st, WireFin(ToConditionCode(st.status), st.data.finDc, st.data.finFs))]
                else t == st && sent == [])
  {
    hide Separated, ToConditionCode;
  }

  // Every FIN of a run reports the same.
  ghost predicate SameReport(st: Rx, ps: seq<Packet>) {
    forall p :: p in ps && p.pdu.Fin? ==> p.pdu == WireFin(ToConditionCode(st.status), st.data.finDc, st.data.finFs)
  }

  lemma ReportingTick(cfg: Config, st: Rx, env: Env)
    requires 0 < st.cap && Separated(st.chunks) && 0 < cfg.crcBlock && Reporting(cfg, st) && 0 < st.inactTimer
    requires env.bufOk
    ensures var r := Tick(cfg, st, env);
            && r.rx.cap == st.cap && r.rx.chunks == st.chunks && SameReport(st, r.sent)
            && r.rx.status == st.status && r.rx.data.finDc == st.data.finDc && r.rx.data.finFs == st.data.finFs
            && (if Reporting(cfg, r.rx) then
                  r.rx.inactTimer == st.inactTimer - 1
                  && TicksLeft(cfg, st, st.flags.sendFin) == 1 + TicksLeft(cfg, r.rx, r.rx.flags.sendFin)
                  && OnTime(cfg, st, st.flags.sendFin, r.rx, r.rx.flags.sendFin, Sends(r.sent))
                else
                  TicksLeft(cfg, st, st.flags.sendFin) == 1 && r.rx.phase == Hold
                  && SendsLeft(cfg, st, st.flags.sendFin) == Sends(r.sent) == 0)
  {
    hide InactivityTick, AckTimerTick, CheckState, Maintain, Separated, ToConditionCode;
    var b := AckTimerTick(InactivityTick(st));
    var c := TickState(cfg, st, env);
    TimersWait(st);
    CheckReporting(cfg, b, env);
    MaintainReporting(cfg, c);
    OneSend(Maintain(cfg, c, true).1);
  }

  // With no FIN-ACK arriving, the same FIN goes out exactly as often as the limit
  // allows, one full ack timer apart, and one ack timer after the last one the
  // transaction is held over.
  lemma {:induction false} FinRepeats(cfg: Config, st: Rx, envs: seq<Env>, at: nat)
    requires 0 < st.cap && Separated(st.chunks) && 0 < cfg.crcBlock && Reporting(cfg, st)
    requires |envs| == TicksLeft(cfg, st, st.flags.sendFin) <= st.inactTimer
    requires forall i :: 0 <= i < |envs| ==> envs[i].bufOk
    ensures var (t, sent) := Ticks(cfg, st, envs);
            && Sends(sent) == SendsLeft(cfg, st, st.flags.sendFin) && SameReport(st, sent) && t.phase == Hold
            && SendTimes(cfg, st, envs, at)
                 == Every(at + Until(st, st.flags.sendFin), cfg.ackTicks + 1, SendsLeft(cfg, st, st.flags.sendFin))
    decreases |envs|
  {
    hide Tick, Reporting, SendsLeft, TicksLeft, Sends, Separated, WireFin, ToConditionCode, Until;
    AtLeastOne(cfg, st, st.flags.sendFin);
    var r := Tick(cfg, st, envs[0]);
    ReportingTick(cfg, st, envs[0]);
    SendsConcat(r.sent, Ticks(cfg, r.rx, envs[1..]).1);
    if Reporting(cfg, r.rx) {
      FinRepeats(cfg, r.rx, envs[1..], at + 1);
    } else {
      OneSend([]);
    }
  }
}
