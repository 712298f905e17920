/** Runs of both ends built step by step. */
module Reach {
  import opened Cfdp
  import opened Crc
  import opened ChunkSpec
  import opened Link
  import Rx = RxSpec
  import Tx = TxSpec
  import TR = TxReads
  import NR = NakRepair
  import RR = RxRuns
  import RF = RxFile
  import TxRuns
  import opened EndToEnd

  // Some run of the system leads from one state to the other; in a sound one every
  // request is served by whole reads, and what the lists handed out remember is known.
  ghost predicate Reaches(cfg: Config, src: seq<uint8>, c: Course, s: System, t: System)
    requires 0 < cfg.crcBlock
  {
    exists states, actions :: Leads(cfg, src, c, s, t, states, actions)
  }

  ghost predicate Leads(cfg: Config, src: seq<uint8>, c: Course, s: System, t: System,
                        states: seq<System>, actions: seq<Action>)
    requires 0 < cfg.crcBlock
  {
    && Trace(cfg, src, states, actions) && states != [] && states[0] == s && states[|states| - 1] == t
    && (c.Sound? ==> forall k :: 0 <= k < |actions| ==> ServedWhole(cfg, actions[k]) && HandsOut(actions[k], c.known))
  }

  // A state the run has come to.
  ghost predicate At(cfg: Config, src: seq<uint8>, c: Course, s: System, t: System)
    requires 0 < cfg.crcBlock
  {
    && Reaches(cfg, src, c, s, t) && Invariant(t, src) && Tidy(t, src)
    && (c.Sound? ==> SoundInvariant(t, src, c.known))
  }

  // No list has an entry that ends behind the file.
  ghost predicate Tidy(t: System, src: seq<uint8>) {
    NR.Within(t.rx.chunks, |src|) && TR.Ranged(t.tx, src, |src|)
  }

  lemma Stays(cfg: Config, src: seq<uint8>, c: Course, s: System)
    requires 0 < cfg.crcBlock && Initial(cfg, src, s) && Tidy(s, src)
    requires c.Sound? ==> Reckoned(s.rx.chunks, c.known)
    ensures At(cfg, src, c, s, s)
  {
    hide Invariant, Initial, On, Tidy, Reckoned;
    InitialInvariant(cfg, src, s, if c.Sound? then c.known else iset{});
    assert Leads(cfg, src, c, s, s, [s], []);
  }

  lemma Longer(cfg: Config, src: seq<uint8>, c: Course, s: System, t: System, a: Action)
    requires 0 < cfg.crcBlock && Reaches(cfg, src, c, s, t) && ValidAction(cfg, a) && Defined(t, a)
    requires c.Sound? ==> ServedWhole(cfg, a) && HandsOut(a, c.known)
    ensures Reaches(cfg, src, c, s, Next(cfg, src, t, a))
  {
    hide Next, Defined, ValidAction, ServedWhole, HandsOut;
    var u := Next(cfg, src, t, a);
    var states, actions :| Leads(cfg, src, c, s, t, states, actions);
    var more, with := states + [u], actions + [a];
    forall i | 0 <= i < |with|
      ensures ValidAction(cfg, with[i]) && Defined(more[i], with[i]) && more[i + 1] == Next(cfg, src, more[i], with[i])
    {
    }
    assert Leads(cfg, src, c, s, u, more, with);
  }

  lemma OneMore(cfg: Config, src: seq<uint8>, c: Course, s: System, t: System, a: Action)
    requires Works(cfg) && At(cfg, src, c, s, t) && ValidAction(cfg, a) && !a.RxRenew?
    requires (c.Sound? ==> ServedWhole(cfg, a))
    ensures Defined(t, a) && At(cfg, src, c, s, Next(cfg, src, t, a))
  {
    hide Next, Reaches, Defined, ValidAction, ServedWhole, On, InOrder, NoCleanEof, SoundInvariant, Tidy;
    AlwaysDefined(src, t, a, Unknown);
    StepInvariant(cfg, src, t, a);
    Longer(cfg, src, c, s, t, a);
    StaysTidy(cfg, src, t, a);
    if c.Sound? {
      StepSound(cfg, src, t, a, c.known);
    }
  }

  lemma StaysTidy(cfg: Config, src: seq<uint8>, t: System, a: Action)
    requires Works(cfg) && Defined(t, a) && On(t, src, Unknown) && Tidy(t, src) && !a.RxRenew?
    ensures Tidy(Next(cfg, src, t, a), src)
  {
    hide TxRuns.Step, Rx.Recv, Rx.Tick, WellFormed, RF.Faithful, Honest, TxRuns.Trusting, TR.Ranged, Add;
    if OfSender(a) {
      if !(a.ToSender? && |t.toTx| <= a.k) {
        TxArrival(t, src, a, Unknown);
        TxRuns.StepRanged(cfg, t.tx, src, TxEvent(t, a), |src|);
      }
    } else {
      match a {
        case ToReceiver(k, env) =>
          if k < |t.toRx| {
            ArrivesWithin(cfg, src, t, t.toRx[k], env);
          }
        case RxWakeup(env) =>
          assert Separated(t.rx.chunks) by { HasSeparated(t.rx.cap, t.rx.chunks); }
          RR.TickKeepsList(cfg, t.rx, env);
        case _ =>
      }
    }
  }

  lemma ArrivesWithin(cfg: Config, src: seq<uint8>, t: System, pkt: Packet, env: Rx.Env)
    requires 0 < t.rx.cap && WellFormed(t.rx.cap, t.rx.chunks) && Rx.Acceptable(pkt.pdu)
    requires Genuine(pkt.pdu, src, Unknown)
    requires NR.Within(t.rx.chunks, |src|)
    ensures NR.Within(Rx.Recv(cfg, t.rx, pkt, env).chunks, |src|)
  {
    hide Rx.Recv, Add, Separated;
    RR.RecvHandles(cfg, t.rx, pkt, env);
    if pkt.pdu.FileData? {
      AddStaysBelow(t.rx.cap, t.rx.chunks, Chunk(pkt.pdu.offset, |pkt.pdu.data|), |src|);
    }
  }

  // ---------- the actions one by one ----------

  lemma Lists(cfg: Config, src: seq<uint8>, c: Course, s: System, t: System)
    requires 0 < cfg.crcBlock && At(cfg, src, c, s, t)
    ensures 0 < t.rx.cap && WellFormed(t.rx.cap, t.rx.chunks) && Separated(t.rx.chunks) && 0 < t.tx.cap
    ensures |src| <= U32_MAX && NR.Within(t.rx.chunks, |src|) && TR.Ranged(t.tx, src, |src|)
    ensures WellFormed(t.tx.cap, t.tx.chunks)
    ensures forall k :: 0 <= k < |t.toRx| ==> Rx.Acceptable(t.toRx[k].pdu) && Genuine(t.toRx[k].pdu, src, Unknown)
  {
    hide Reaches, SoundInvariant, InOrder, NoCleanEof, Separated;
    assert Separated(t.rx.chunks) by { HasSeparated(t.rx.cap, t.rx.chunks); }
    forall k | 0 <= k < |t.toRx| ensures Rx.Acceptable(t.toRx[k].pdu) && Genuine(t.toRx[k].pdu, src, Unknown) {
      assert t.toRx[k] in t.toRx;
      GenuineAcceptable(t.toRx[k].pdu, src, Unknown);
    }
  }

  lemma HasSeparated(cap: nat, s: seq<Chunk>)
    requires WellFormed(cap, s)
    ensures Separated(s)
  {
  }

  lemma WakeTx(cfg: Config, src: seq<uint8>, c: Course, s: System, t: System, env: Tx.Env) returns (u: System)
    requires Works(cfg) && At(cfg, src, c, s, t)
    ensures At(cfg, src, c, s, u)
    ensures var r := Tx.Tick(cfg, t.tx, env); u == t.(tx := r.tx, toRx := t.toRx + r.sent)
  {
    hide At, Tx.Tick, Defined;
    OneMore(cfg, src, c, s, t, TxWakeup(env));
    u := Next(cfg, src, t, TxWakeup(env));
  }

  lemma Feed(cfg: Config, src: seq<uint8>, c: Course, s: System, t: System, env: Tx.Env) returns (u: System)
    requires Works(cfg) && At(cfg, src, c, s, t) && TR.Roomy(cfg, env)
    ensures At(cfg, src, c, s, u)
    ensures var (x, sent) := Tx.SendNewData(cfg, t.tx, src, env); u == t.(tx := x, toRx := t.toRx + sent)
  {
    hide At, Tx.SendNewData, Defined;
    OneMore(cfg, src, c, s, t, TxNewData(env));
    u := Next(cfg, src, t, TxNewData(env));
  }

  lemma Answer(cfg: Config, src: seq<uint8>, c: Course, s: System, t: System, env: Tx.Env) returns (u: System)
    requires Works(cfg) && At(cfg, src, c, s, t) && TR.Roomy(cfg, env) && (c.Sound? ==> TR.WholeReads(cfg, env))
    ensures At(cfg, src, c, s, u)
    ensures var (x, sent) := Tx.TickNak(cfg, t.tx, src, env); u == t.(tx := x, toRx := t.toRx + sent)
  {
    hide At, Tx.TickNak, Defined;
    OneMore(cfg, src, c, s, t, TxRequests(env));
    u := Next(cfg, src, t, TxRequests(env));
  }

  lemma Hear(cfg: Config, src: seq<uint8>, c: Course, s: System, t: System, k: nat) returns (u: System)
    requires Works(cfg) && At(cfg, src, c, s, t) && k < |t.toTx|
    ensures At(cfg, src, c, s, u) && 0 < t.tx.cap
    ensures u == t.(tx := Tx.Recv(cfg, t.tx, t.toTx[k]))
  {
    hide At, Tx.Recv, Defined;
    Lists(cfg, src, c, s, t);
    OneMore(cfg, src, c, s, t, ToSender(k));
    u := Next(cfg, src, t, ToSender(k));
    assert t.toRx + [] == t.toRx;
  }

  lemma Take(cfg: Config, src: seq<uint8>, c: Course, s: System, t: System, k: nat, env: Rx.Env) returns (u: System)
    requires Works(cfg) && At(cfg, src, c, s, t) && k < |t.toRx|
    ensures At(cfg, src, c, s, u) && 0 < t.rx.cap && Rx.Acceptable(t.toRx[k].pdu)
    ensures u == t.(rx := Rx.Recv(cfg, t.rx, t.toRx[k], env))
  {
    hide At, Rx.Recv, Defined;
    Lists(cfg, src, c, s, t);
    OneMore(cfg, src, c, s, t, ToReceiver(k, env));
    u := Next(cfg, src, t, ToReceiver(k, env));
  }

  lemma WakeRx(cfg: Config, src: seq<uint8>, c: Course, s: System, t: System, env: Rx.Env) returns (u: System)
    requires Works(cfg) && At(cfg, src, c, s, t)
    ensures At(cfg, src, c, s, u) && 0 < t.rx.cap && Separated(t.rx.chunks)
    ensures var r := Rx.Tick(cfg, t.rx, env); u == t.(rx := r.rx, toTx := t.toTx + r.sent)
  {
    hide At, Rx.Tick, Defined, Separated;
    Lists(cfg, src, c, s, t);
    OneMore(cfg, src, c, s, t, RxWakeup(env));
    u := Next(cfg, src, t, RxWakeup(env));
  }

  // One run after the other.
  lemma Joined(cfg: Config, src: seq<uint8>, c: Course, s: System, t: System, u: System)
    requires 0 < cfg.crcBlock && Reaches(cfg, src, c, s, t) && Reaches(cfg, src, c, t, u)
    ensures Reaches(cfg, src, c, s, u)
  {
    hide Next, Defined, ValidAction, ServedWhole, HandsOut;
    var ss, a :| Leads(cfg, src, c, s, t, ss, a);
    var us, b :| Leads(cfg, src, c, t, u, us, b);
    var states, actions := ss + us[1..], a + b;
    forall i | 0 <= i < |actions|
      ensures ValidAction(cfg, actions[i]) && Defined(states[i], actions[i])
      ensures states[i + 1] == Next(cfg, src, states[i], actions[i])
      ensures c.Sound? ==> ServedWhole(cfg, actions[i]) && HandsOut(actions[i], c.known)
    {
      if i < |a| {
        assert actions[i] == a[i] && states[i] == ss[i] && states[i + 1] == ss[i + 1];
      } else {
        var j := i - |a|;
        assert actions[i] == b[j] && states[i + 1] == us[j + 1] && states[i] == us[j];
      }
    }
    assert Leads(cfg, src, c, s, u, states, actions);
  }

  // A run may begin in any state another one has come to.
  lemma Restart(cfg: Config, src: seq<uint8>, c: Course, s: System, t: System)
    requires 0 < cfg.crcBlock && At(cfg, src, c, s, t)
    ensures At(cfg, src, c, t, t)
  {
    hide Invariant, SoundInvariant;
    assert Leads(cfg, src, c, t, t, [t], []);
  }

  lemma Reached(cfg: Config, src: seq<uint8>, c: Course, s: System, t: System)
    requires 0 < cfg.crcBlock && At(cfg, src, c, s, t)
    ensures Reaches(cfg, src, c, s, t)
  {
    hide Invariant, SoundInvariant, Reaches;
  }
}
