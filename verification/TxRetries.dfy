/** How often and for how long a class 2 sender repeats its EOF when nobody answers. */
module TxRetries {
  import opened Cfdp
  import opened Crc
  import opened TxSpec

  // The data are sent, and neither EOF-ACK nor FIN has come.
  ghost predicate Waiting(cfg: Config, st: Tx) {
    && st.phase == S2 && st.reliable && st.data.sub == DataEof && st.Ok()
    && !st.flags.eofAckRecv && st.flags.finCount == 0 && st.flags.finAckCount == 0 && !st.flags.sendMd
    && !st.com.inactFired && st.data.acknak <= cfg.ackLimit
  }

  function RetriesLeft(cfg: Config, st: Tx): nat {
    if st.data.acknak < cfg.ackLimit then cfg.ackLimit - st.data.acknak else 0
  }

  // EOFs and ticks until the sender gives up.
  function EofsLeft(cfg: Config, st: Tx): nat { (if st.flags.sendEof then 1 else 0) + RetriesLeft(cfg, st) }

  function TicksLeft(cfg: Config, st: Tx): nat {
    RetryTicks(cfg, RetriesLeft(cfg, st)) + 1 +
    (if st.flags.sendEof then cfg.ackTicks + 1 else if st.com.ackArmed then st.ackTimer else 0)
  }

  function Eofs(ps: seq<Packet>): nat {
    if ps == [] then 0 else (if ps[0].pdu.Eof? then 1 else 0) + Eofs(ps[1..])
  }

  function TickRun(cfg: Config, st: Tx, envs: seq<Env>): (Tx, seq<Packet>)
    decreases |envs|
  {
    if envs == [] then (st, [])
    else
      var r := Tick(cfg, st, envs[0]);
      var (t, rest) := TickRun(cfg, r.tx, envs[1..]);
      (t, r.sent + rest)
  }

  // The wakeups in which an EOF goes out, the first one being `at`.
  function EofTimes(cfg: Config, st: Tx, envs: seq<Env>, at: nat): seq<nat>
    decreases |envs|
  {
    if envs == [] then []
    else
      var r := Tick(cfg, st, envs[0]);
      (if Eofs(r.sent) != 0 then [at] else []) + EofTimes(cfg, r.tx, envs[1..], at + 1)
  }

  // Wakeups before the next EOF goes out, if the limit allows another one.
  function Until(st: Tx): nat { if !st.flags.sendEof && st.com.ackArmed then st.ackTimer else 0 }

  // How a wakeup moves the next EOF and the number of those left.
  predicate OnTime(cfg: Config, st: Tx, t: Tx, sends: nat) {
    && EofsLeft(cfg, st) == sends + EofsLeft(cfg, t)
    && (if sends == 0 then EofsLeft(cfg, t) == 0 || Until(st) == Until(t) + 1
        else sends == 1 && Until(st) == 0 && Until(t) == cfg.ackTicks)
  }

  // The timers before the state check of a waiting sender.
  lemma TimersWait(cfg: Config, st: Tx)
    requires Waiting(cfg, st) && 0 < st.inactTimer
    ensures var a := InactivityTick(st);
            var b := AckTimerTick(a);
            && Waiting(cfg, b) && b.inactTimer == st.inactTimer - 1 && b.data == st.data && b.flags == st.flags
            && b.com.ackArmed == (st.com.ackArmed && st.ackTimer != 0)
            && (b.com.ackArmed ==> b.ackTimer == st.ackTimer - 1)
  {
  }

  // What the state check decides: nothing while an EOF or the timer is pending,
  // then one more EOF or the end.
  lemma CheckWait(cfg: Config, st: Tx, env: Env)
    requires Waiting(cfg, st)
    ensures var t := CheckState(cfg, st, env);
            && t.inactTimer == st.inactTimer && t.reliable && t.phase == S2
            && t.flags.finCount == 0 && t.flags.finAckCount == 0 && !t.flags.sendMd
            && (if st.flags.sendEof || st.com.ackArmed then t == st
                else if st.data.acknak < cfg.ackLimit then
                  Waiting(cfg, t) && t.flags.sendEof && t.data.acknak == st.data.acknak + 1
                else t.status == ST_NAK_LIMIT_REACHED && t.data.sub == FileStore && !t.flags.sendEof)
  {
  }

  lemma MaintainWait(cfg: Config, st: Tx)
    requires st.reliable && st.flags.finCount == st.flags.finAckCount && !st.flags.sendMd
    ensures var (t, sent) := Maintain(cfg, st, true);
            && t.inactTimer == st.inactTimer && t.status == st.status && t.data == st.data && t.phase == st.phase
            && (if st.flags.sendEof then
                  (Waiting(cfg, st) ==> Waiting(cfg, t)) && !t.flags.sendEof && t.com.ackArmed &&
                    t.ackTimer == cfg.ackTicks
                  && |sent| == 1 && sent[0].pdu.Eof?
                else t == st && sent == [])
  {
    hide ToConditionCode;
  }

  lemma WaitTick(cfg: Config, st: Tx, env: Env)
    requires Waiting(cfg, st) && 0 < st.inactTimer && env.bufOk
    ensures var r := Tick(cfg, st, env);
            && r.tx.inactTimer == st.inactTimer - 1
            && (if Waiting(cfg, r.tx) then
                  TicksLeft(cfg, st) == 1 + TicksLeft(cfg, r.tx) && OnTime(cfg, st, r.tx, Eofs(r.sent))
                else
                  TicksLeft(cfg, st) == 1 && EofsLeft(cfg, st) == Eofs(r.sent) == 0
                  && r.tx.status == ST_NAK_LIMIT_REACHED && r.tx.data.sub == FileStore)
  {
    hide InactivityTick, AckTimerTick, CheckState, Maintain;
    var b := AckTimerTick(InactivityTick(st));
    var c := TickState(cfg, st, env);
    TimersWait(cfg, st);
    CheckWait(cfg, b, env);
    MaintainWait(cfg, c);
    OneEof(Maintain(cfg, c, true).1);
  }

  lemma OneEof(ps: seq<Packet>)
    ensures |ps| == 1 && ps[0].pdu.Eof? ==> Eofs(ps) == 1
    ensures ps == [] ==> Eofs(ps) == 0
  {
    if |ps| == 1 {
      assert ps[1..] == [];
    }
  }

  lemma {:induction false} EofsConcat(a: seq<Packet>, b: seq<Packet>)
    ensures Eofs(a + b) == Eofs(a) + Eofs(b)
  {
    if a == [] {
      assert a + b == b;
    } else {
      assert (a + b)[1..] == a[1..] + b;
      EofsConcat(a[1..], b);
    }
  }

  // With nothing arriving, a sender that waits sends its EOF exactly as often as
  // the limit allows, one full ack timer apart, and gives up exactly one ack timer
  // after the last one, if the inactivity timer does not end the wait before.
  lemma {:induction false} EofRepeats(cfg: Config, st: Tx, envs: seq<Env>, at: nat)
    requires Waiting(cfg, st) && |envs| == TicksLeft(cfg, st) <= st.inactTimer
    requires forall i :: 0 <= i < |envs| ==> envs[i].bufOk
    ensures var (t, sent) := TickRun(cfg, st, envs);
            && Eofs(sent) == EofsLeft(cfg, st)
            && EofTimes(cfg, st, envs, at) == Every(at + Until(st), cfg.ackTicks + 1, EofsLeft(cfg, st))
            && t.status == ST_NAK_LIMIT_REACHED && t.data.sub == FileStore
    decreases |envs|
  {
    hide Tick, Waiting, EofsLeft, TicksLeft, Eofs, Until;
    AtLeastOne(cfg, st);
    var r := Tick(cfg, st, envs[0]);
    WaitTick(cfg, st, envs[0]);
    var (t, rest) := TickRun(cfg, r.tx, envs[1..]);
    EofsConcat(r.sent, rest);
    if Waiting(cfg, r.tx) {
      EofRepeats(cfg, r.tx, envs[1..], at + 1);
    } else {
      OneEof([]);
    }
  }

  lemma AtLeastOne(cfg: Config, st: Tx)
    ensures 0 < TicksLeft(cfg, st)
  {
  }

  // From the wakeup that finds all data sent: one EOF and as many repetitions as the limit.
  lemma FirstEof(cfg: Config, st: Tx, envs: seq<Env>)
    requires st.phase == S2 && st.reliable && st.data.sub == DataNormal && st.fsize <= st.foffs && st.Ok()
    requires !st.flags.eofAckRecv && st.flags.finCount == 0 && st.flags.finAckCount == 0 && !st.flags.sendMd
    requires !st.com.inactFired
    requires RetryTicks(cfg, cfg.ackLimit) + cfg.ackTicks + 2 == |envs| && |envs| <= st.inactTimer + 1
    requires forall i :: 0 <= i < |envs| ==> envs[i].bufOk
    ensures var (t, sent) := TickRun(cfg, st, envs);
            && Eofs(sent) == 1 + cfg.ackLimit && t.status == ST_NAK_LIMIT_REACHED && t.data.sub == FileStore
            && EofTimes(cfg, st, envs, 0) == Every(0, cfg.ackTicks + 1, 1 + cfg.ackLimit)
  {
    hide Tick, Eofs;
    var r := Tick(cfg, st, envs[0]);
    EnterEof(cfg, st, envs[0]);
    EofsConcat(r.sent, TickRun(cfg, r.tx, envs[1..]).1);
    OneEof(r.sent);
    EofRepeats(cfg, r.tx, envs[1..], 1);
  }

  lemma EnterEof(cfg: Config, st: Tx, env: Env)
    requires st.phase == S2 && st.reliable && st.data.sub == DataNormal && st.fsize <= st.foffs && st.Ok()
    requires !st.flags.eofAckRecv && st.flags.finCount == 0 && st.flags.finAckCount == 0 && !st.flags.sendMd
    requires !st.com.inactFired && env.bufOk
    ensures var r := Tick(cfg, st, env);
            && Waiting(cfg, r.tx) && r.tx.inactTimer == st.inactTimer && r.tx.data.acknak == 0
            && !r.tx.flags.sendEof && r.tx.com.ackArmed && r.tx.ackTimer == cfg.ackTicks
            && |r.sent| == 1 && r.sent[0].pdu.Eof?
  {
    hide Maintain, CheckState, InactivityTick, AckTimerTick;
    NoTimersYet(st);
    var b := AckTimerTick(InactivityTick(st));
    LastData(cfg, b, env);
    MaintainWait(cfg, TickState(cfg, st, env));
  }

  lemma NoTimersYet(st: Tx)
    requires st.data.sub == DataNormal
    ensures var b := AckTimerTick(InactivityTick(st));
            && b.phase == st.phase && b.reliable == st.reliable && b.data == st.data && b.flags == st.flags
            && b.fsize == st.fsize && b.foffs == st.foffs && b.status == st.status
            && b.inactTimer == st.inactTimer && b.com.inactFired == st.com.inactFired
  {
  }

  lemma LastData(cfg: Config, st: Tx, env: Env)
    requires st.phase == S2 && st.reliable && st.data.sub == DataNormal && st.fsize <= st.foffs && st.Ok()
    requires !st.flags.eofAckRecv && st.flags.finCount == 0 && st.flags.finAckCount == 0 && !st.flags.sendMd
    requires !st.com.inactFired
    ensures var t := CheckState(cfg, st, env);
            && Waiting(cfg, t) && t.flags.sendEof && t.data.acknak == 0 && t.inactTimer == st.inactTimer
  {
    hide Finalize;
  }
}
