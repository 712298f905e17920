/** How long a sending transaction lasts when nothing arrives. */
module TxTermination {
  import opened Cfdp
  import opened Crc
  import opened ChunkSpec
  import opened TxSpec
  import opened TxReads
  import TxRuns

  // The inactivity timer of an active sender fires with an error, and only once
  // the data are sent; holdover follows the last sub-state at once.
  ghost predicate Sane(st: Tx) {
    st.Active() ==> st.data.sub != Complete && (st.com.inactFired ==> !st.Ok())
  }

  // One wakeup: the state tick, then new file data.
  function Wake(cfg: Config, st: Tx, src: seq<uint8>, env: Env): Tx {
    SendNewData(cfg, Tick(cfg, st, env).tx, src, env).0
  }

  function Wakes(cfg: Config, st: Tx, src: seq<uint8>, envs: seq<Env>): Tx
    decreases |envs|
  {
    if envs == [] then st else Wakes(cfg, Wake(cfg, st, src, envs[0]), src, envs[1..])
  }

  // Bound on the wakeups left: the bytes not sent yet, then the inactivity timer.
  function Bound(st: Tx): nat {
    if !st.Active() then 0
    else match st.data.sub
      case DataNormal =>
        if st.foffs < st.fsize then (if st.Ok() then st.fsize - st.foffs + st.inactTimer + 4 else 3)
        else st.inactTimer + 4
      case DataEof => if st.Ok() then st.inactTimer + 3 else 2
      case _ => 1
  }

  // ---------- the state tick ----------

  lemma SendFrame(cfg: Config, st: Tx, bufOk: bool)
    ensures var t := Maintain(cfg, st, bufOk).0;
            && t.phase == st.phase && t.data == st.data && t.status == st.status && t.foffs == st.foffs
            && t.fsize == st.fsize && t.inactTimer == st.inactTimer && t.com.inactFired == st.com.inactFired
            && t.fdOpen == st.fdOpen && t.pos == st.pos
  {
    hide ToConditionCode;
  }

  lemma InactivityFrame(st: Tx)
    ensures var t := InactivityTick(st);
            && t.phase == st.phase && t.data == st.data && t.foffs == st.foffs && t.fsize == st.fsize
            && t.fdOpen == st.fdOpen && t.pos == st.pos && t.flags == st.flags
            && (t.Ok() ==> st.Ok()) && t.inactTimer <= st.inactTimer
            && (st.Active() && st.data.sub != DataNormal && st.Ok() && !st.com.inactFired && t.Ok() ==>
                  t.inactTimer < st.inactTimer && !t.com.inactFired)
            && (st.data.sub == DataNormal || st.com.inactFired ==> t == st)
            && (st.Active() && t.com.inactFired && !st.com.inactFired ==> !t.Ok())
  {
  }

  lemma AckFrame(st: Tx)
    ensures var t := AckTimerTick(st);
            && t.phase == st.phase && t.data == st.data && t.foffs == st.foffs && t.fsize == st.fsize
            && t.fdOpen == st.fdOpen && t.pos == st.pos && t.flags == st.flags
            && t.status == st.status && t.inactTimer == st.inactTimer && t.com.inactFired == st.com.inactFired
  {
  }

  // Deciding the next sub-state touches nothing that the bound or the data pump looks at.
  ghost predicate Kept(st: Tx, a: Tx) {
    && a.phase == st.phase && a.foffs == st.foffs && a.fsize == st.fsize && a.inactTimer == st.inactTimer
    && a.fdOpen == st.fdOpen && a.pos == st.pos && a.data.sub == st.data.sub && a.data.cachedPos == st.data.cachedPos
    && a.com.inactFired == st.com.inactFired && (a.Ok() ==> st.Ok())
  }

  lemma CheckKept(cfg: Config, st: Tx, env: Env)
    ensures var (a, next) := Check(cfg, st, env);
            && Kept(st, a)
            && (st.data.sub == FileStore ==> next == Complete)
            && (next == DataNormal ==> st.data.sub == DataNormal && st.Ok() && st.foffs < st.fsize)
            && (next == DataEof ==> st.data.sub == DataNormal || (st.data.sub == DataEof && st.Ok()))
            && (next == DataNormal || next == DataEof ==> a.status == st.status)
            && (next == Complete ==> st.data.sub.Rank() >= 2)
  {
    hide CheckDataEof1, CheckDataEof2, HandleFileRetention;
    Eof1Kept(st);
    Eof2Kept(cfg, st);
    StoreKept(st, env);
  }

  lemma Eof1Kept(st: Tx)
    ensures var (a, next) := CheckDataEof1(st);
            Kept(st, a) && a.status == st.status && (next == DataEof || next == FileStore)
  {
  }

  lemma Eof2Kept(cfg: Config, st: Tx)
    ensures var (a, next) := CheckDataEof2(cfg, st);
            Kept(st, a) && (next == DataEof ==> a.status == st.status) && (next == DataEof || next == FileStore)
  {
  }

  lemma StoreKept(st: Tx, env: Env)
    ensures Kept(st, HandleFileRetention(st, env))
  {
  }

  lemma EnterFrame(cfg: Config, st: Tx, next: Sub)
    ensures var t := Enter(cfg, st, next);
            && t.phase == (if next == Complete then Hold else st.phase) && t.data.sub == next
            && t.foffs == st.foffs && t.fsize == st.fsize && (next != Complete ==> t.inactTimer == st.inactTimer)
            && (t.fdOpen ==> st.fdOpen) && t.pos == st.pos && t.data.cachedPos == st.data.cachedPos
            && t.com.inactFired == st.com.inactFired && t.status == st.status
  {
    hide Finalize;
  }

  // What a state check does to the bound and to what the data pump looks at.
  lemma CheckBound(cfg: Config, st: Tx, env: Env)
    requires Sane(st) && st.Active()
    ensures var t := CheckState(cfg, st, env);
            && Sane(t)
            && (t.Active() ==>
                  && t.foffs == st.foffs && t.fsize == st.fsize && t.inactTimer == st.inactTimer
                  && st.data.sub != FileStore
                  && (t.data.sub == st.data.sub ==> t.status == st.status && (st.data.sub == DataEof ==> t.Ok()) &&
                                                    (st.data.sub == DataNormal ==> t.Ok() && t.foffs < t.fsize))
                  && (t.data.sub == DataNormal ==> st.data.sub == DataNormal)
                  && (t.data.sub == DataEof && st.data.sub == DataNormal ==> t.status == st.status))
  {
    hide Check, Enter;
    var (a, next) := Check(cfg, st, env);
    CheckKept(cfg, st, env);
    EnterFrame(cfg, a, next);
  }

  lemma TickBound(cfg: Config, st: Tx, env: Env)
    requires Sane(st) && st.Active()
    ensures var t := Tick(cfg, st, env).tx;
            && Sane(t)
            && (if t.Active() && t.data.sub == DataNormal then t.Ok() && t.foffs < t.fsize && Bound(t) <= Bound(st)
                else Bound(t) < Bound(st))
  {
    hide CheckState, Maintain, InactivityTick, AckTimerTick;
    var a := InactivityTick(st);
    var b := AckTimerTick(a);
    InactivityFrame(st);
    AckFrame(a);
    CheckBound(cfg, b, env);
    SendFrame(cfg, TickState(cfg, st, env), env.bufOk);
  }

  // ---------- new file data ----------

  // A block is sent, or the read is a failure: short reads, seeks that fail and PDUs
  // without room included.
  lemma DataBound(cfg: Config, st: Tx, src: seq<uint8>, env: Env)
    requires env.bufOk && Sane(st)
    requires st.Active() && st.data.sub == DataNormal ==> st.Ok() && st.foffs < st.fsize
    ensures var t := SendNewData(cfg, st, src, env).0;
            && Sane(t)
            && (if st.Active() && st.data.sub == DataNormal then Bound(t) < Bound(st) else Bound(t) <= Bound(st))
  {
    hide SendFileData, Bound, Sane;
    if st.data.sub == DataNormal && st.foffs < st.fsize {
      SendMoves(cfg, st, src, st.foffs, st.fsize - st.foffs, true, env);
      var r := SendFileData(cfg, st, src, st.foffs, st.fsize - st.foffs, true, env);
      match r.result {
        case Failed => FailedBound(st, r.tx);
        case Sent(n) =>
          if n == 0 {
            FailedBound(st, r.tx);
          } else {
            SentBound(st, r.tx, n);
          }
        case _ =>
      }
    }
  }

  lemma SentBound(st: Tx, a: Tx, n: nat)
    requires Sane(st) && Moved(st, a) && st.data.sub == DataNormal && 0 < n <= st.fsize - st.foffs
    ensures var t := a.(foffs := a.foffs + n);
            Sane(t) && (if st.Active() && st.Ok() then Bound(t) < Bound(st) else st.Active() || Bound(t) <= Bound(st))
  {
  }

  lemma FailedBound(st: Tx, a: Tx)
    requires Sane(st) && Moved(st, a) && st.data.sub == DataNormal && st.foffs < st.fsize
    ensures var t := a.SetStatus(ST_READ_FAILURE);
            Sane(t) && (if st.Active() && st.Ok() then Bound(t) < Bound(st) else st.Active() || Bound(t) <= Bound(st))
  {
  }

  // Every active sender, in either class, whatever it waits for and whatever the
  // file operations do, is held over after at most one wakeup a byte still to be
  // sent and the inactivity timer, as long as there are buffers.
  lemma {:induction false} EndsByInactivity(cfg: Config, st: Tx, src: seq<uint8>, envs: seq<Env>)
    requires Sane(st)
    requires forall i :: 0 <= i < |envs| ==> envs[i].bufOk
    requires Bound(st) <= |envs|
    ensures !Wakes(cfg, st, src, envs).Active()
    decreases |envs|
  {
    hide Tick, SendNewData, Sane, Bound;
    if envs != [] {
      if st.Active() {
        TickBound(cfg, st, envs[0]);
      } else {
        HeldOver(cfg, st, envs[0]);
      }
      DataBound(cfg, Tick(cfg, st, envs[0]).tx, src, envs[0]);
      BoundFacts(st);
      BoundFacts(Tick(cfg, st, envs[0]).tx);
      EndsByInactivity(cfg, Wake(cfg, st, src, envs[0]), src, envs[1..]);
    } else {
      BoundFacts(st);
    }
  }

  lemma BoundFacts(st: Tx)
    ensures Bound(st) == 0 <==> !st.Active()
  {
  }

  lemma HeldOver(cfg: Config, st: Tx, env: Env)
    requires Sane(st) && !st.Active()
    ensures Sane(Tick(cfg, st, env).tx) && !Tick(cfg, st, env).tx.Active()
  {
    hide Maintain, InactivityTick, AckTimerTick;
    InactivityFrame(st);
    SendFrame(cfg, TickState(cfg, st, env), env.bufOk);
  }

  // ---------- what the bound rests on holds in every run ----------

  lemma StartSane(cfg: Config, class2: bool, keep: bool, cmdTx: bool, list: Handed, stale: Status,
                  srcLen: nat, dstLen: nat, size: nat)
    ensures Sane(Start(cfg, class2, keep, cmdTx, size, list, stale, srcLen, dstLen))
  {
  }

  // No step, with any PDUs and any outcome of the calls, loses it.
  lemma StepSane(cfg: Config, st: Tx, src: seq<uint8>, e: TxRuns.Event)
    requires 0 < st.cap && Sane(st)
    ensures Sane(TxRuns.Step(cfg, st, src, e).0)
  {
    hide Recv, Tick, TickNak, SendNewData;
    match e {
      case Arrive(pkt) => TxRuns.RecvNotes(cfg, st, pkt);
      case Wakeup(env) =>
        if st.Active() {
          TickBound(cfg, st, env);
        } else {
          HeldOver(cfg, st, env);
        }
      case Requests(env) => TxRuns.RequestsFeed(cfg, st, src, env);
      case NewData(env) => TxRuns.NewDataFeeds(cfg, st, src, env);
      case _ =>
    }
  }

  lemma {:induction false} RunSane(cfg: Config, st: Tx, src: seq<uint8>, es: seq<TxRuns.Event>)
    requires 0 < st.cap && Sane(st)
    ensures Sane(TxRuns.Run(cfg, st, src, es).0)
    decreases |es|
  {
    if es != [] {
      hide TxRuns.Step, Sane;
      StepSane(cfg, st, src, es[0]);
      TxRuns.StepKeepsRoom(cfg, st, src, es[0]);
      RunSane(cfg, TxRuns.Step(cfg, st, src, es[0]).0, src, es[1..]);
    }
  }

  // So whenever in a run of a sender nothing arrives any more, it ends.
  lemma EveryRunEnds(cfg: Config, class2: bool, keep: bool, cmdTx: bool, list: Handed, stale: Status,
                     srcLen: nat, dstLen: nat, src: seq<uint8>, es: seq<TxRuns.Event>, envs: seq<Env>)
    requires list.Proper() && forall i :: 0 <= i < |envs| ==> envs[i].bufOk
    ensures var st := TxRuns.Run(cfg, Start(cfg, class2, keep, cmdTx, |src|, list, stale, srcLen, dstLen), src, es).0;
            Bound(st) <= |envs| ==> !Wakes(cfg, st, src, envs).Active()
  {
    hide TxRuns.Run, Start, Sane, Bound, Wakes;
    StartRoom(cfg, class2, keep, cmdTx, list, stale, srcLen, dstLen, |src|);
    StartSane(cfg, class2, keep, cmdTx, list, stale, srcLen, dstLen, |src|);
    RunSane(cfg, Start(cfg, class2, keep, cmdTx, |src|, list, stale, srcLen, dstLen), src, es);
    var st := TxRuns.Run(cfg, Start(cfg, class2, keep, cmdTx, |src|, list, stale, srcLen, dstLen), src, es).0;
    if Bound(st) <= |envs| {
      EndsByInactivity(cfg, st, src, envs);
    }
  }

  lemma StartRoom(cfg: Config, class2: bool, keep: bool, cmdTx: bool, list: Handed, stale: Status,
                  srcLen: nat, dstLen: nat, size: nat)
    ensures Start(cfg, class2, keep, cmdTx, size, list, stale, srcLen, dstLen).cap == list.cap
  {
  }
}
