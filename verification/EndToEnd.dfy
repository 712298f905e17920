/**
 Sender, receiver and a link that may lose, repeat and reorder packets but not alter them.
 What a packet says survives encoding and decoding; that is proved apart, in Wire.
 */
module EndToEnd {
  import opened Cfdp
  import opened Crc
  import opened ChunkSpec
  import opened Link
  import Rx = RxSpec
  import RR = RxRuns
  import RF = RxFile
  import NR = NakRepair
  import Tx = TxSpec
  import TR = TxReads
  import TxRuns

  // ---------- the system ----------

  // Everything sent stays on the link: a packet may arrive never, once, or again
  // and again, in any order.
  datatype System = System(tx: Tx.Tx, rx: Rx.Rx, toRx: seq<Packet>, toTx: seq<Packet>)

  datatype Action =
    | ToReceiver(k: nat, env: Rx.Env)
    | ToSender(k: nat)
    | RxWakeup(env: Rx.Env)
    | TxWakeup(txEnv: Tx.Env)
    | TxRequests(txEnv: Tx.Env)
    | TxNewData(txEnv: Tx.Env)
    | RxRenew(unack: bool, list: Option<Handed>, stale: Status, createOk: bool)
    | RxCancel | RxAbandon | TxCancel | TxAbandon

  // Every data PDU has room for data. A new transaction is handed any chunk list an
  // earlier one may have left, or none.
  ghost predicate ValidAction(cfg: Config, a: Action) {
    && (a.TxRequests? || a.TxNewData? ==> TR.Roomy(cfg, a.txEnv))
    && (a.RxRenew? ==> Usable(a.list))
  }

  // The bytes the list remembers are among the known ones.
  ghost predicate Reckoned(s: seq<Chunk>, known: iset<int>) { forall x :: Covers(s, x) ==> x in known }

  ghost predicate HandsOut(a: Action, known: iset<int>) { a.RxRenew? ==> Reckoned(Got(a.list).chunks, known) }

  // A read that serves a request is not cut short before the end of the file.
  predicate ServedWhole(cfg: Config, a: Action) { a.TxRequests? ==> TR.WholeReads(cfg, a.txEnv) }

  predicate Works(cfg: Config) { 0 < cfg.crcBlock && 0 < cfg.maxSegments && 0 < cfg.chunkSize }

  // What the handlers assert of their arguments.
  ghost predicate Defined(s: System, a: Action) {
    && 0 < s.rx.cap && WellFormed(s.rx.cap, s.rx.chunks)
    && 0 < s.tx.cap && WellFormed(s.tx.cap, s.tx.chunks)
    && (a.ToReceiver? && a.k < |s.toRx| ==> Rx.Acceptable(s.toRx[a.k].pdu))
    && (a.ToSender? && a.k < |s.toTx| ==> Tx.Acceptable(s.tx.fsize, s.toTx[a.k].pdu))
  }

  // The step of the sender in an action of the sender.
  predicate OfSender(a: Action) {
    a.ToSender? || a.TxWakeup? || a.TxRequests? || a.TxNewData? || a.TxCancel? || a.TxAbandon?
  }

  function TxEvent(s: System, a: Action): TxRuns.Event
    requires OfSender(a) && (a.ToSender? ==> a.k < |s.toTx|)
  {
    match a
    case ToSender(k) => TxRuns.Arrive(s.toTx[k])
    case TxWakeup(env) => TxRuns.Wakeup(env)
    case TxRequests(env) => TxRuns.Requests(env)
    case TxNewData(env) => TxRuns.NewData(env)
    case TxCancel => TxRuns.CancelCmd
    case TxAbandon => TxRuns.AbandonCmd
  }

  function TxNext(cfg: Config, src: seq<uint8>, s: System, a: Action): System
    requires 0 < s.tx.cap && OfSender(a) && (a.ToSender? ==> a.k < |s.toTx|)
  {
    var (t, sent) := TxRuns.Step(cfg, s.tx, src, TxEvent(s, a));
    s.(tx := t, toRx := s.toRx + sent)
  }

  // Actions that are not possible change nothing. A receiving transaction whose
  // holdover has ended is forgotten, and a straggler may start a new one.
  function Next(cfg: Config, src: seq<uint8>, s: System, a: Action): System
    requires 0 < cfg.crcBlock && Defined(s, a)
  {
    match a
    case ToReceiver(k, env) => if k < |s.toRx| then s.(rx := Rx.Recv(cfg, s.rx, s.toRx[k], env)) else s
    case RxWakeup(env) =>
      var r := Rx.Tick(cfg, s.rx, env);
      s.(rx := r.rx, toTx := s.toTx + r.sent)
    case RxRenew(unack, list, stale, createOk) =>
      if s.rx.phase == Rx.Hold && s.rx.com.inactFired then
        s.(rx := Rx.Setup(cfg, unack, list, stale, createOk, s.rx.disk.retained))
      else s
    case RxCancel => s.(rx := Rx.Cancel(s.rx))
    case RxAbandon => s.(rx := Rx.Finish(cfg, s.rx))
    case ToSender(k) => if k < |s.toTx| then TxNext(cfg, src, s, a) else s
    case _ => TxNext(cfg, src, s, a)
  }

  // A run: the states and the actions between them.
  ghost predicate Trace(cfg: Config, src: seq<uint8>, states: seq<System>, actions: seq<Action>)
    requires 0 < cfg.crcBlock
  {
    && |states| == |actions| + 1
    && forall i :: 0 <= i < |actions| ==>
         ValidAction(cfg, actions[i]) && Defined(states[i], actions[i]) &&
         states[i + 1] == Next(cfg, src, states[i], actions[i])
  }

  // A class 2 transfer of `src` before anything was sent; an older file may already
  // stand under the final name, and both chunk lists are as their last holders left them.
  ghost predicate Initial(cfg: Config, src: seq<uint8>, s: System) {
    && |src| <= U32_MAX
    && (exists keep, cmdTx, list: Handed, stale, srcLen, dstLen ::
          list.Proper() && s.tx == Tx.Start(cfg, true, keep, cmdTx, |src|, list, stale, srcLen, dstLen))
    && (exists unack, list, stale, createOk, previous ::
          Usable(list) && s.rx == Rx.Setup(cfg, unack, list, stale, createOk, previous))
    && s.toRx == [] && s.toTx == []
  }

  // ---------- the invariant ----------

  // No EOF without an error was sent.
  ghost predicate NoCleanEof(ps: seq<Packet>) { forall p :: p in ps && p.pdu.Eof? ==> IsError(p.pdu.cc) }

  // What holds in any run, in a run without a clean EOF, and in a run in which no
  // read that counts was cut short.
  ghost predicate On(s: System, src: seq<uint8>, c: Course) {
    && TR.Ranged(s.tx, src, U32_MAX) && NR.NotBehind(s.tx) && TxRuns.Trusting(s.tx, Kept(c, src, s.rx.disk.retained))
    && (c.Sound? ==> TR.Placed(s.tx, src))
    && RF.Faithful(s.rx, s.rx.data.sub, src, c)
    && (forall p :: p in s.toRx ==> Genuine(p.pdu, src, c))
    && (forall p :: p in s.toTx ==> Honest(p.pdu, Kept(c, src, s.rx.disk.retained)))
  }

  // No EOF goes out before all data were sent.
  ghost predicate InOrder(s: System) {
    s.tx.data.sub == Tx.DataNormal ==> !s.tx.flags.sendEof && forall p :: p in s.toRx ==> !p.pdu.Eof?
  }

  // A new read that comes short is noted as an error before the EOF, and then no
  // EOF is clean any more.
  ghost predicate Live(s: System) { s.tx.Ok() || !NoCleanEof(s.toRx) }

  ghost predicate Invariant(s: System, src: seq<uint8>) {
    && InOrder(s)
    && On(s, src, Unknown)
    && (NoCleanEof(s.toRx) ==> On(s, src, Barren))
  }

  // The same for runs in which requests are served by whole reads.
  ghost predicate SoundInvariant(s: System, src: seq<uint8>, known: iset<int>) {
    Invariant(s, src) && (Live(s) ==> On(s, src, Sound(known)))
  }

  // ---------- actions are defined ----------

  lemma GenuineAcceptable(p: Pdu, src: seq<uint8>, c: Course)
    requires Genuine(p, src, c) && |src| <= U32_MAX
    ensures Rx.Acceptable(p)
  {
  }

  lemma HonestAcceptable(p: Pdu, size: nat, kept: bool)
    requires Honest(p, kept) && size <= U32_MAX
    ensures Tx.Acceptable(size, p)
  {
  }

  // In a state with the invariant every action is defined.
  lemma AlwaysDefined(src: seq<uint8>, s: System, a: Action, c: Course)
    requires On(s, src, c)
    ensures Defined(s, a)
  {
    hide WellFormed, Genuine, Honest;
    if a.ToReceiver? && a.k < |s.toRx| {
      assert s.toRx[a.k] in s.toRx;
      GenuineAcceptable(s.toRx[a.k].pdu, src, c);
    }
    if a.ToSender? && a.k < |s.toTx| {
      assert s.toTx[a.k] in s.toTx;
      HonestAcceptable(s.toTx[a.k].pdu, |src|, Kept(c, src, s.rx.disk.retained));
    }
  }

  // ---------- the receiver's actions ----------

  // A retained source stays retained, so what was said about it stays true.
  lemma StillTrue(s: System, t: System, src: seq<uint8>, c: Course)
    requires TxRuns.Trusting(s.tx, Kept(c, src, s.rx.disk.retained)) && RF.SameOrSource(s.rx, t.rx, src, c)
    ensures TxRuns.Trusting(s.tx, Kept(c, src, t.rx.disk.retained))
    ensures forall p :: Honest(p, Kept(c, src, s.rx.disk.retained)) ==> Honest(p, Kept(c, src, t.rx.disk.retained))
  {
  }

  lemma RxStep(cfg: Config, src: seq<uint8>, s: System, a: Action, c: Course)
    requires Works(cfg) && Defined(s, a) && On(s, src, c) && ValidAction(cfg, a) && !OfSender(a)
    requires c.Sound? ==> HandsOut(a, c.known)
    ensures On(Next(cfg, src, s, a), src, c)
  {
    hide Rx.Recv, Rx.Tick, Rx.Setup, TR.Ranged, TxRuns.Trusting, RF.Faithful, Honest, Genuine, WellFormed;
    var t := Next(cfg, src, s, a);
    RF.HasList(s.rx, src, c);
    match a {
      case ToReceiver(k, env) =>
        if k < |s.toRx| {
          RF.ArriveFaithful(cfg, s.rx, s.toRx[k], env, src, c);
        }
      case RxWakeup(env) =>
        RF.TickFaithful(cfg, s.rx, env, src, c);
      case RxRenew(unack, list, stale, createOk) =>
        RF.SetupFaithful(cfg, unack, list, stale, createOk, s.rx.disk.retained, src, c);
      case _ =>
        RF.OtherFaithful(cfg, s.rx, src, c);
    }
    StillTrue(s, t, src, c);
  }

  // ---------- the sender's actions ----------

  // What a step of the sender puts on the link.
  lemma StepSends(cfg: Config, st: Tx.Tx, src: seq<uint8>, e: TxRuns.Event, c: Course)
    requires 0 < st.cap && TR.Ranged(st, src, U32_MAX) && NR.NotBehind(st) && (c.Sound? ==> TR.Placed(st, src))
    requires e.Requests? || e.NewData? ==> TR.Roomy(cfg, e.env)
    ensures forall p :: p in TxRuns.Step(cfg, st, src, e).1 ==> Genuine(p.pdu, src, c) || (p.pdu.Eof? && c.Barren?)
  {
    hide Tx.Recv, Tx.Tick, Tx.SendFileData, WellFormed, Genuine;
    match e {
      case Wakeup(env) =>
        TickSends(cfg, st, src, env, c);
      case Requests(env) =>
        if st.chunks != [] {
          TR.FirstInFile(st, src, U32_MAX);
          TR.SendGenuine(cfg, st, src, st.chunks[0].offset, st.chunks[0].size, false, env, c);
        }
      case NewData(env) =>
        if st.foffs < st.fsize {
          TR.SendGenuine(cfg, st, src, st.foffs, st.fsize - st.foffs, true, env, c);
        }
      case _ =>
    }
  }

  lemma TickSends(cfg: Config, st: Tx.Tx, src: seq<uint8>, env: Tx.Env, c: Course)
    requires st.fsize == |src|
    ensures forall p :: p in Tx.Tick(cfg, st, env).sent ==> Genuine(p.pdu, src, c) || (p.pdu.Eof? && c.Barren?)
  {
    hide Tx.InactivityTick, Tx.AckTimerTick, Tx.CheckState, ToConditionCode;
    TxRuns.TimersWake(st);
    TxRuns.CheckWakes(cfg, Tx.AckTimerTick(Tx.InactivityTick(st)), env);
  }

  // In a run without a clean EOF the step must not send one; in a sound one it
  // must not part the file from the transaction.
  lemma TxStep(cfg: Config, src: seq<uint8>, s: System, a: Action, c: Course)
    requires Works(cfg) && Defined(s, a) && On(s, src, c) && ValidAction(cfg, a) && OfSender(a)
    requires c.Barren? ==> NoCleanEof(Next(cfg, src, s, a).toRx)
    requires c.Sound? ==> ServedWhole(cfg, a) && Live(Next(cfg, src, s, a)) && InOrder(s)
    ensures On(Next(cfg, src, s, a), src, c)
  {
    hide TxRuns.Step, TR.Ranged, TxRuns.Trusting, WellFormed, RF.Faithful, Honest, NoCleanEof, Live, InOrder;
    if !(a.ToSender? && |s.toTx| <= a.k) {
      var e := TxEvent(s, a);
      var (t, sent) := TxRuns.Step(cfg, s.tx, src, e);
      var kept := Kept(c, src, s.rx.disk.retained);
      TxArrival(s, src, a, c);
      TxRuns.StepRanged(cfg, s.tx, src, e, U32_MAX);
      TxRuns.StepNotBehind(cfg, s.tx, src, e);
      TxRuns.StepTrusts(cfg, s.tx, src, e, kept);
      StepSends(cfg, s.tx, src, e, c);
      SentGenuine(s.toRx, sent, src, c);
      if c.Sound? {
        StaysPositioned(cfg, src, s, a);
      }
    }
  }

  lemma TxArrival(s: System, src: seq<uint8>, a: Action, c: Course)
    requires On(s, src, c) && OfSender(a) && (a.ToSender? ==> a.k < |s.toTx|)
    ensures var e := TxEvent(s, a);
            && 0 < s.tx.cap && TxRuns.ValidEvent(|src|, e)
            && (e.Arrive? && ClaimsRetained(e.pkt.pdu) ==> Kept(c, src, s.rx.disk.retained))
  {
    hide WellFormed;
    if a.ToSender? {
      assert s.toTx[a.k] in s.toTx;
    }
  }

  lemma SentGenuine(before: seq<Packet>, sent: seq<Packet>, src: seq<uint8>, c: Course)
    requires forall p :: p in before ==> Genuine(p.pdu, src, c)
    requires forall p :: p in sent ==> Genuine(p.pdu, src, c) || (p.pdu.Eof? && c.Barren?)
    requires c.Barren? ==> NoCleanEof(before + sent)
    ensures forall p :: p in before + sent ==> Genuine(p.pdu, src, c)
  {
  }

  lemma StaysPositioned(cfg: Config, src: seq<uint8>, s: System, a: Action)
    requires Defined(s, a) && TR.Placed(s.tx, src) && OfSender(a) && (a.ToSender? ==> a.k < |s.toTx|)
    requires 0 < cfg.crcBlock && ServedWhole(cfg, a) && Live(Next(cfg, src, s, a)) && InOrder(s)
    ensures TR.Placed(Next(cfg, src, s, a).tx, src)
  {
    hide TxRuns.Step, TR.Placed, WellFormed;
    TxRuns.StepPositioned(cfg, s.tx, src, TxEvent(s, a));
    if a.TxNewData? {
      TxRuns.NewDataFeeds(cfg, s.tx, src, a.txEnv);
      NewDataStep(cfg, s.tx, src, a.txEnv);
    }
  }

  lemma NewDataStep(cfg: Config, st: Tx.Tx, src: seq<uint8>, env: Tx.Env)
    requires 0 < st.cap
    ensures TxRuns.Step(cfg, st, src, TxRuns.NewData(env)) == Tx.SendNewData(cfg, st, src, env)
  {
    hide Tx.SendNewData;
  }

  // ---------- the order of things ----------

  lemma StepInOrder(cfg: Config, src: seq<uint8>, s: System, a: Action)
    requires 0 < cfg.crcBlock && Defined(s, a) && InOrder(s)
    ensures InOrder(Next(cfg, src, s, a))
    ensures var t := Next(cfg, src, s, a);
            && (t.tx.Ok() ==> s.tx.Ok())
            && (!NoCleanEof(t.toRx) ==> !NoCleanEof(s.toRx) || t.tx.Ok())
  {
    hide TxRuns.Step, WellFormed;
    if OfSender(a) && !(a.ToSender? && |s.toTx| <= a.k) {
      var e := TxEvent(s, a);
      TxRuns.StepKeepsRoom(cfg, s.tx, src, e);
      EofAfterData(cfg, s.tx, src, e);
    } else {
      assert Next(cfg, src, s, a).toRx == s.toRx && Next(cfg, src, s, a).tx == s.tx;
    }
  }

  lemma EofAfterData(cfg: Config, st: Tx.Tx, src: seq<uint8>, e: TxRuns.Event)
    requires 0 < st.cap
    ensures var (t, sent) := TxRuns.Step(cfg, st, src, e);
            && (t.data.sub == Tx.DataNormal ==> st.data.sub == Tx.DataNormal)
            && (t.data.sub == Tx.DataNormal && !st.flags.sendEof ==>
                  !t.flags.sendEof && forall p :: p in sent ==> !p.pdu.Eof?)
            && (forall p :: p in sent && p.pdu.Eof? && !IsError(p.pdu.cc) ==> t.Ok())
  {
    hide Tx.Recv, Tx.Tick, Tx.TickNak, Tx.SendNewData;
    match e {
      case Arrive(pkt) => TxRuns.RecvNotes(cfg, st, pkt);
      case Wakeup(env) => TickAfterData(cfg, st, env);
      case Requests(env) => TxRuns.RequestsFeed(cfg, st, src, env);
      case NewData(env) => TxRuns.NewDataFeeds(cfg, st, src, env);
      case _ =>
    }
  }

  lemma TickAfterData(cfg: Config, st: Tx.Tx, env: Tx.Env)
    ensures var r := Tx.Tick(cfg, st, env);
            && (r.tx.data.sub == Tx.DataNormal ==> st.data.sub == Tx.DataNormal)
            && (r.tx.data.sub == Tx.DataNormal && !st.flags.sendEof ==>
                  !r.tx.flags.sendEof && forall p :: p in r.sent ==> !p.pdu.Eof?)
            && (forall p :: p in r.sent && p.pdu.Eof? && !IsError(p.pdu.cc) ==> r.tx.Ok())
  {
    hide Tx.InactivityTick, Tx.AckTimerTick, Tx.CheckState, Tx.Maintain;
    var b := Tx.AckTimerTick(Tx.InactivityTick(st));
    TxRuns.TimersWake(st);
    CheckAfterData(cfg, b, env);
    MaintainAfterData(cfg, Tx.TickState(cfg, st, env), env.bufOk);
  }

  lemma CheckAfterData(cfg: Config, st: Tx.Tx, env: Tx.Env)
    ensures var t := Tx.CheckState(cfg, st, env);
            t.data.sub == Tx.DataNormal ==> st.data.sub == Tx.DataNormal && t.flags == st.flags
  {
    hide Finalize;
  }

  lemma MaintainAfterData(cfg: Config, st: Tx.Tx, bufOk: bool)
    ensures var (t, sent) := Tx.Maintain(cfg, st, bufOk);
            && t.data.sub == st.data.sub && (t.flags.sendEof ==> st.flags.sendEof) && t.status == st.status
            && (forall p :: p in sent && p.pdu.Eof? ==> st.flags.sendEof && (!IsError(p.pdu.cc) ==> st.Ok()))
  {
  }

  // ---------- every run ----------

  lemma StepOn(cfg: Config, src: seq<uint8>, s: System, a: Action, c: Course)
    requires Works(cfg) && Defined(s, a) && On(s, src, c) && ValidAction(cfg, a)
    requires c.Barren? ==> NoCleanEof(Next(cfg, src, s, a).toRx)
    requires c.Sound? ==> ServedWhole(cfg, a) && HandsOut(a, c.known) && Live(Next(cfg, src, s, a)) && InOrder(s)
    ensures On(Next(cfg, src, s, a), src, c)
  {
    hide HandsOut, Next, On, Defined, Live, InOrder;
    if OfSender(a) {
      TxStep(cfg, src, s, a, c);
    } else {
      RxStep(cfg, src, s, a, c);
    }
  }

  lemma StillBarren(cfg: Config, src: seq<uint8>, s: System, a: Action)
    requires 0 < cfg.crcBlock && Defined(s, a) && NoCleanEof(Next(cfg, src, s, a).toRx)
    ensures NoCleanEof(s.toRx)
  {
    hide TxRuns.Step, Rx.Tick, Rx.Recv, WellFormed;
    assert forall p :: p in s.toRx ==> p in Next(cfg, src, s, a).toRx;
  }

  lemma StepInvariant(cfg: Config, src: seq<uint8>, s: System, a: Action)
    requires Works(cfg) && Defined(s, a) && Invariant(s, src) && ValidAction(cfg, a)
    ensures Invariant(Next(cfg, src, s, a), src)
  {
    hide Next, On, Defined, InOrder, NoCleanEof;
    StepInOrder(cfg, src, s, a);
    StepOn(cfg, src, s, a, Unknown);
    if NoCleanEof(Next(cfg, src, s, a).toRx) {
      StillBarren(cfg, src, s, a);
      StepOn(cfg, src, s, a, Barren);
    }
  }

  lemma StepSound(cfg: Config, src: seq<uint8>, s: System, a: Action, known: iset<int>)
    requires Works(cfg) && Defined(s, a) && SoundInvariant(s, src, known) && ValidAction(cfg, a) && ServedWhole(cfg, a)
    requires HandsOut(a, known)
    ensures SoundInvariant(Next(cfg, src, s, a), src, known)
  {
    hide HandsOut, Next, On, Defined, InOrder, NoCleanEof, Invariant;
    StepInvariant(cfg, src, s, a);
    assert InOrder(s) by { OrderHere(s, src); }
    StepInOrder(cfg, src, s, a);
    if Live(Next(cfg, src, s, a)) {
      StepOn(cfg, src, s, a, Sound(known));
    }
  }

  lemma OrderHere(s: System, src: seq<uint8>)
    requires Invariant(s, src)
    ensures InOrder(s) && On(s, src, Unknown)
  {
    hide On, InOrder, NoCleanEof;
  }

  lemma {:induction false} TraceInvariant(cfg: Config, src: seq<uint8>, states: seq<System>, actions: seq<Action>,
                                          i: nat)
    requires Works(cfg) && Trace(cfg, src, states, actions) && Invariant(states[0], src) && i <= |actions|
    ensures Invariant(states[i], src)
  {
    hide Next, Invariant, Defined;
    if i != 0 {
      TraceInvariant(cfg, src, states, actions, i - 1);
      StepInvariant(cfg, src, states[i - 1], actions[i - 1]);
    }
  }

  lemma {:induction false} TraceSound(cfg: Config, src: seq<uint8>, states: seq<System>, actions: seq<Action>, i: nat,
                                      known: iset<int>)
    requires Works(cfg) && Trace(cfg, src, states, actions) && SoundInvariant(states[0], src, known) && i <= |actions|
    requires forall k :: 0 <= k < |actions| ==> ServedWhole(cfg, actions[k]) && HandsOut(actions[k], known)
    ensures SoundInvariant(states[i], src, known)
  {
    hide Next, SoundInvariant, Defined, ServedWhole, HandsOut;
    if i != 0 {
      TraceSound(cfg, src, states, actions, i - 1, known);
      StepSound(cfg, src, states[i - 1], actions[i - 1], known);
    }
  }

  lemma InitialInvariant(cfg: Config, src: seq<uint8>, s: System, known: iset<int>)
    requires Initial(cfg, src, s)
    ensures Invariant(s, src) && (Reckoned(s.rx.chunks, known) ==> SoundInvariant(s, src, known))
  {
    hide Rx.Setup, RF.Faithful, WellFormed;
    var unack, list, stale, createOk, previous :|
      Usable(list) && s.rx == Rx.Setup(cfg, unack, list, stale, createOk, previous);
    RR.SetupList(cfg, unack, list, stale, createOk, previous);
    RF.SetupFaithful(cfg, unack, list, stale, createOk, previous, src, Unknown);
    RF.SetupFaithful(cfg, unack, list, stale, createOk, previous, src, Barren);
    if Reckoned(s.rx.chunks, known) {
      RF.SetupFaithful(cfg, unack, list, stale, createOk, previous, src, Sound(known));
    }
    SenderStarts(cfg, src, s);
  }

  lemma SenderStarts(cfg: Config, src: seq<uint8>, s: System)
    requires Initial(cfg, src, s)
    ensures TR.Ranged(s.tx, src, U32_MAX) && NR.NotBehind(s.tx) && TR.Placed(s.tx, src) && TxRuns.Trusting(s.tx, false)
    ensures InOrder(s)
  {
    hide Rx.Setup;
  }

  // In every run, whatever the reads deliver, every action is defined: every packet
  // ever sent is one the other side's chunk list accepts, so the assertions on
  // ranges never fail.
  lemma EveryActionDefined(cfg: Config, src: seq<uint8>, states: seq<System>, actions: seq<Action>, i: nat, a: Action)
    requires Works(cfg) && Trace(cfg, src, states, actions) && states != [] && Initial(cfg, src, states[0])
    requires |states| == |actions| + 1 && i <= |actions|
    ensures Defined(states[i], a)
  {
    hide Trace, Initial, On, Defined, InOrder;
    InitialInvariant(cfg, src, states[0], iset{});
    TraceInvariant(cfg, src, states, actions, i);
    AlwaysDefined(src, states[i], a, Unknown);
  }

  // In every state of every run in which requests are served by whole reads, with
  // whatever chunk lists: if the sender has given up its source, the receiver holds a
  // file under the final name that has every byte of the source but those its lists
  // remembered when they were handed out; and so it does if any FIN says it does.
  lemma DeletedMeansRight(cfg: Config, src: seq<uint8>, states: seq<System>, actions: seq<Action>, i: nat,
                          known: iset<int>)
    requires Works(cfg) && Trace(cfg, src, states, actions) && states != [] && Initial(cfg, src, states[0])
    requires |states| == |actions| + 1 && i <= |actions|
    requires Reckoned(states[0].rx.chunks, known)
    requires forall k :: 0 <= k < |actions| ==> ServedWhole(cfg, actions[k]) && HandsOut(actions[k], known)
    ensures var s := states[i];
            && (s.tx.source.Gone() ==> Kept(Sound(known), src, s.rx.disk.retained))
            && (forall p :: p in s.toTx && ClaimsRetained(p.pdu) ==> Kept(Sound(known), src, s.rx.disk.retained))
  {
    hide Trace, Initial, SoundInvariant, ServedWhole, HandsOut, Kept, Reckoned;
    InitialInvariant(cfg, src, states[0], known);
    TraceSound(cfg, src, states, actions, i, known);
    SoundMeansDelivered(states[i], src, known);
  }

  // No byte of a file of `n` bytes is remembered.
  ghost predicate ClearBelow(s: seq<Chunk>, n: nat) { forall x :: 0 <= x < n ==> !Covers(s, x) }

  // If no list the receiver is handed remembers a byte of the file, that file is the
  // source byte for byte. The sender's list may remember anything.
  lemma DeletedOnlyIfDelivered(cfg: Config, src: seq<uint8>, states: seq<System>, actions: seq<Action>, i: nat)
    requires Works(cfg) && Trace(cfg, src, states, actions) && states != [] && Initial(cfg, src, states[0])
    requires |states| == |actions| + 1 && i <= |actions|
    requires ClearBelow(states[0].rx.chunks, |src|)
    requires forall k :: 0 <= k < |actions| ==>
               ServedWhole(cfg, actions[k]) && (actions[k].RxRenew? ==> ClearBelow(Got(actions[k].list).chunks, |src|))
    ensures var s := states[i];
            && (s.tx.source.Gone() ==> s.rx.disk.retained == Some(src))
            && (forall p :: p in s.toTx && ClaimsRetained(p.pdu) ==> s.rx.disk.retained == Some(src))
            && (forall a :: Defined(s, a))
  {
    hide Trace, Initial, ServedWhole, Covers, Right, Defined;
    forall a ensures Defined(states[i], a) {
      EveryActionDefined(cfg, src, states, actions, i, a);
    }
    var known := Outside(|src|);
    NothingKnown(states[0].rx.chunks, |src|);
    forall k | 0 <= k < |actions| ensures HandsOut(actions[k], known) {
      if actions[k].RxRenew? {
        NothingKnown(Got(actions[k].list).chunks, |src|);
      }
    }
    DeletedMeansRight(cfg, src, states, actions, i, known);
    if Kept(Sound(known), src, states[i].rx.disk.retained) {
      RightIsSource(states[i].rx.disk.retained.value, src, known);
    }
  }

  predicate InFile(x: int, n: nat) { 0 <= x < n }

  ghost function Outside(n: nat): iset<int> { iset x: int | !InFile(x, n) }

  lemma NothingKnown(s: seq<Chunk>, n: nat)
    requires ClearBelow(s, n)
    ensures Reckoned(s, Outside(n))
  {
    hide Covers;
  }

  // Either no clean EOF was sent, and nothing was ever complete, or the run is sound.
  lemma SoundMeansDelivered(s: System, src: seq<uint8>, known: iset<int>)
    requires SoundInvariant(s, src, known)
    ensures s.tx.source.Gone() ==> Kept(Sound(known), src, s.rx.disk.retained)
    ensures forall p :: p in s.toTx && ClaimsRetained(p.pdu) ==> Kept(Sound(known), src, s.rx.disk.retained)
  {
    hide TR.Ranged, RF.Faithful, NoCleanEof, Genuine;
  }
}
