/** When a RETAINED report stands for bytes that arrived: exactly when the list handed out was empty. */
module RxReuse {
  import opened Cfdp
  import opened Crc
  import opened ChunkSpec
  import Gaps
  import opened RxSpec
  import opened RxRuns
  import RC = RxChecksum

  // ---------- runs in which one byte does not arrive ----------

  ghost predicate Comes(cfg: Config, s: Rx, t: Rx, x: int)
    requires 0 < s.cap && WellFormed(s.cap, s.chunks) && 0 < cfg.crcBlock
  {
    exists es :: Leads(cfg, s, t, x, es)
  }

  ghost predicate AllValid(es: seq<Event>) { forall k :: 0 <= k < |es| ==> ValidEvent(es[k]) }

  ghost predicate Leads(cfg: Config, s: Rx, t: Rx, x: int, es: seq<Event>)
    requires 0 < s.cap && WellFormed(s.cap, s.chunks) && 0 < cfg.crcBlock
  {
    AllValid(es) && !Arrived(es, x) && Run(cfg, s, es) == t
  }

  lemma Starts(cfg: Config, s: Rx, x: int)
    requires 0 < s.cap && WellFormed(s.cap, s.chunks) && 0 < cfg.crcBlock
    ensures Comes(cfg, s, s, x)
  {
    assert Leads(cfg, s, s, x, []);
  }

  predicate Brings(e: Event, x: int) {
    e.Arrive? && e.pkt.pdu.FileData? && Chunk(e.pkt.pdu.offset, |e.pkt.pdu.data|).Has(x)
  }

  lemma Goes(cfg: Config, s: Rx, t: Rx, x: int, e: Event) returns (u: Rx)
    requires 0 < s.cap && WellFormed(s.cap, s.chunks) && 0 < cfg.crcBlock && Comes(cfg, s, t, x)
    requires ValidEvent(e) && !Brings(e, x)
    ensures 0 < t.cap == s.cap && WellFormed(t.cap, t.chunks) && Separated(t.chunks)
    ensures u == Step(cfg, t, e) && Comes(cfg, s, u, x)
  {
    hide Step;
    var es :| Leads(cfg, s, t, x, es);
    RC.ListSeparated(t);
    u := Step(cfg, t, e);
    assert (es + [e])[..|es|] == es;
    assert Run(cfg, s, es + [e]) == u;
    assert !Arrived(es + [e], x) by { StillMissing(es, e, x); }
    assert Leads(cfg, s, u, x, es + [e]);
  }

  lemma StillMissing(es: seq<Event>, e: Event, x: int)
    requires !Arrived(es, x) && !Brings(e, x)
    ensures !Arrived(es + [e], x)
  {
    forall k | 0 <= k < |es + [e]| ensures !Brings((es + [e])[k], x) {
      if k < |es| {
        assert (es + [e])[k] == es[k];
      }
    }
  }

  // ---------- the states of the run, in class 1 ----------

  function Good(n: nat): Env { Env(true, n, n, true, true) }

  // What holds all along, with the file as it is.
  ghost predicate Steady(st: Rx, n: nat, temp: seq<uint8>) {
    && st.phase == R1 && !st.reliable && st.Ok() && st.disk.fdOpen && st.flags.tempCreated && !st.com.inactFired
    && !st.flags.sendNak && !st.flags.sendFin && st.disk.pos == st.data.cachedPos && st.disk.temp == temp
    && st.flags.mdRecv && st.fsize == n && 0 < st.inactTimer
  }

  ghost predicate Announced(st: Rx, n: nat, temp: seq<uint8>) {
    Steady(st, n, temp) && st.flags.eofCount != 0 && st.data.eofSize == n && st.data.eofCrc == Checksum(temp)
  }

  lemma TakesMetadata(cfg: Config, list: Handed, n: nat)
    requires 0 < list.cap && 0 < cfg.inactTicks && 0 < cfg.nameMax
    ensures var start := Setup(cfg, true, Some(list), ST_NO_ERROR, true, None);
            var t := Recv(cfg, start, Packet(true, Metadata(false, n, 0, 0)), Good(n));
            Steady(t, n, []) && t.data.sub == DataNormal && t.flags.eofCount == 0 && t.cap == list.cap &&
              t.chunks == list.chunks
  {
  }

  lemma TakesData(cfg: Config, st: Rx, n: nat, temp: seq<uint8>, off: nat, data: seq<uint8>)
    requires Steady(st, n, temp) && st.data.sub == DataNormal && st.flags.eofCount == 0 && 0 < st.cap
    requires Acceptable(FileData(off, data)) && |data| <= n && 0 < cfg.inactTicks
    ensures var t := Recv(cfg, st, Packet(true, FileData(off, data)), Good(n));
            && Steady(t, n, WriteAt(temp, off, data)) && t.data.sub == DataNormal && t.flags.eofCount == 0
            && t.cap == st.cap && t.chunks == Add(st.cap, st.chunks, Chunk(off, |data|))
  {
    hide Add, WriteAt;
    assert data[..|data|] == data;
  }

  lemma TakesEof(cfg: Config, st: Rx, n: nat, temp: seq<uint8>)
    requires Steady(st, n, temp) && st.data.sub == DataNormal && st.flags.eofCount == 0 && 0 < st.cap
    requires 0 < cfg.inactTicks && 0 < cfg.ackLimit
    ensures var t := Recv(cfg, st, Packet(true, Eof(0, Checksum(temp), n)), Good(n));
            Announced(t, n, temp) && t.data.sub == DataNormal && t.cap == st.cap && t.chunks == st.chunks
  {
    hide Checksum;
  }

  // A PDU that no handler takes puts off the inactivity timer, and nothing else.
  function Stray(): Packet { Packet(true, Nak([])) }

  lemma PutsOff(cfg: Config, st: Rx, env: Env)
    requires 0 < st.cap && st.phase == R1 && !st.reliable
    ensures Recv(cfg, st, Stray(), env) == st.(inactTimer := cfg.inactTicks)
  {
  }

  lemma WaitsForFile(cfg: Config, st: Rx, n: nat, temp: seq<uint8>)
    requires Announced(st, n, temp) && st.data.sub == DataNormal && 0 < st.cap && Separated(st.chunks)
    requires 0 < cfg.crcBlock
    ensures var t := Tick(cfg, st, Good(n)).rx;
            && Announced(t.(inactTimer := cfg.inactTicks + 1), n, temp) && t.data.sub == DataEof
            && t.cap == st.cap && t.chunks == st.chunks
  {
    hide InactivityTick, AckTimerTick, CheckState, Maintain, Checksum, Separated;
    var b := AckTimerTick(InactivityTick(st));
    FirstTimers(st);
    FirstCheck(cfg, b, n, temp);
    FirstSend(cfg, CheckState(cfg, b, Good(n)), n, temp);
  }

  // The timer apart.
  ghost predicate Waiting(st: Rx, n: nat, temp: seq<uint8>) { Announced(st.(inactTimer := 1), n, temp) }

  lemma FirstTimers(st: Rx)
    requires st.phase == R1 && !st.reliable && !st.com.inactFired && 0 < st.inactTimer
    ensures AckTimerTick(InactivityTick(st)) == st.(inactTimer := st.inactTimer - 1)
  {
  }

  lemma FirstCheck(cfg: Config, st: Rx, n: nat, temp: seq<uint8>)
    requires Waiting(st, n, temp) && st.data.sub == DataNormal && Separated(st.chunks) && 0 < cfg.crcBlock
    ensures var t := CheckState(cfg, st, Good(n));
            Waiting(t, n, temp) && t.data.sub == DataEof && t.cap == st.cap && t.chunks == st.chunks
  {
    hide Checksum, Separated;
  }

  lemma FirstSend(cfg: Config, st: Rx, n: nat, temp: seq<uint8>)
    requires 0 < st.cap && Separated(st.chunks) && Waiting(st, n, temp)
    ensures Maintain(cfg, st, true) == (st, [])
  {
    hide Checksum, Separated;
  }

  // ---------- the checksum, with the timer put off after each wakeup ----------

  lemma {:induction false} Computes(cfg: Config, s: Rx, t: Rx, x: int, k: nat, d: seq<uint8>) returns (u: Rx)
    requires 0 < s.cap && WellFormed(s.cap, s.chunks) && ValidConfig(cfg) && 0 < cfg.inactTicks && Comes(cfg, s, t, x)
    requires RC.Validating(t, k, d) && 0 < t.inactTimer && t.phase == R1 && !t.reliable
    ensures Comes(cfg, s, u, x) && RC.SameFile(t, u) && u.data.sub == FileStore && u.Ok() && u.Active()
    ensures 0 < u.inactTimer && t.fsize <= |t.disk.temp|
    ensures u.crc.result == Checksum(Words(RC.Final(t, k, d)))
    decreases t.fsize - k
  {
    hide Comes, Tick, Recv, RC.Computing, RC.Further, RC.Final, Words, Checksum, Separated, WellFormed;
    RC.ComputingHere(t, k, d);
    var n := t.fsize;
    var a := Goes(cfg, s, t, x, Wakeup(Good(n)));
    RC.ValidateTick(cfg, t, k, d, Good(n));
    StaysUnreliable(cfg, t, Good(n));
    var b := Goes(cfg, s, a, x, Arrive(Stray(), Good(n)));
    PutsOff(cfg, a, Good(n));
    if k < n {
      var (end, e) := RC.Further(cfg, t, k, d);
      RC.FurtherEnd(cfg, t, k, d);
      RC.FurtherFinal(cfg, t, b, k, d);
      PutOffComputes(a, b, end, e);
      u := Computes(cfg, s, b, x, end, e);
    } else {
      RC.DoneResult(a, d);
      RC.AtTheEnd(t, k, d);
      u := b;
    }
  }

  lemma PutOffComputes(st: Rx, t: Rx, k: nat, d: seq<uint8>)
    requires RC.Validating(st, k, d) && t == st.(inactTimer := t.inactTimer)
    ensures RC.Validating(t, k, d)
  {
  }

  lemma StaysUnreliable(cfg: Config, st: Rx, env: Env)
    requires 0 < st.cap && Separated(st.chunks) && 0 < cfg.crcBlock && st.phase == R1 && !st.reliable
    requires Tick(cfg, st, env).rx.Active()
    ensures Tick(cfg, st, env).rx.phase == R1 && !Tick(cfg, st, env).rx.reliable
  {
    hide InactivityTick, AckTimerTick, CheckState, Maintain, Separated;
    TimersTimed(st);
    PhaseStays(cfg, AckTimerTick(InactivityTick(st)), env);
    TickKeepsList(cfg, st, env);
    MaintainQuiet(cfg, TickState(cfg, st, env), env.bufOk);
  }

  lemma PhaseStays(cfg: Config, st: Rx, env: Env)
    requires Separated(st.chunks) && 0 < cfg.crcBlock && st.phase == R1
    ensures CheckState(cfg, st, env).phase == R1 || !CheckState(cfg, st, env).Active()
  {
    hide Check, Enter, Separated;
    CheckChecked(cfg, st, env);
    EnterEntered(cfg, Check(cfg, st, env).0, Check(cfg, st, env).1, env);
  }

  // ---------- the run ----------

  lemma TouchingAdds(cap: nat, s: seq<Chunk>, c: Chunk, x: int)
    requires 0 < cap && WellFormed(cap, s) && Addable(c) && Covers(s, x) && (x == c.End() || x + 1 == c.offset)
    ensures forall y :: Covers(Add(cap, s, c), y) <==> Covers(s, y) || c.Has(y)
  {
    hide Add, Classify, Separated;
    AddKeepsInvariant(cap, s, c);
    var k :| 0 <= k < |s| && s[k].Has(x);
    assert s[k].Touches(c);
  }

  lemma Writes(temp: seq<uint8>, at: nat, d: seq<uint8>)
    requires d != [] && |temp| <= at
    ensures |WriteAt(temp, at, d)| == at + |d|
  {
  }

  // All but byte x arrives, in front of it and behind it.
  lemma AllButOne(cfg: Config, list: Handed, s: Rx, a: Rx) returns (t: Rx, temp: seq<uint8>)
    requires list.Proper() && list.chunks != [] && list.chunks[0].offset + 2 <= U32_MAX
    requires 0 < s.cap && WellFormed(s.cap, s.chunks) && ValidConfig(cfg) && 0 < cfg.inactTicks
    requires var x := list.chunks[0].offset;
             && Comes(cfg, s, a, x) && Steady(a, x + 2, []) && a.data.sub == DataNormal && a.flags.eofCount == 0
             && a.cap == list.cap && a.chunks == list.chunks
    ensures var x := list.chunks[0].offset;
            && Comes(cfg, s, t, x) && Steady(t, x + 2, temp) && t.data.sub == DataNormal && t.flags.eofCount == 0
            && 0 < t.cap && WellFormed(t.cap, t.chunks) && |temp| == x + 2
            && forall y :: 0 <= y < x + 2 ==> Covers(t.chunks, y)
  {
    hide Comes, Recv, Steady, Add, WriteAt, Separated;
    var x, n := list.chunks[0].offset, list.chunks[0].offset + 2;
    assert list.chunks[0].Has(x) && Covers(list.chunks, x) by { FirstHas(list.chunks); }
    var b, front := a, [];
    if 0 < x {
      var zeros := Zeros(x);
      TakesData(cfg, a, n, [], 0, zeros);
      b := Goes(cfg, s, a, x, Arrive(Packet(true, FileData(0, zeros)), Good(n)));
      TouchingAdds(list.cap, list.chunks, Chunk(0, x), x);
      AddKeepsInvariant(list.cap, list.chunks, Chunk(0, x));
      front := WriteAt([], 0, zeros);
      Writes([], 0, zeros);
    }
    TakesData(cfg, b, n, front, x + 1, [0]);
    t := Goes(cfg, s, b, x, Arrive(Packet(true, FileData(x + 1, [0])), Good(n)));
    TouchingAdds(b.cap, b.chunks, Chunk(x + 1, 1), x);
    AddKeepsInvariant(b.cap, b.chunks, Chunk(x + 1, 1));
    temp := WriteAt(front, x + 1, [0]);
    Writes(front, x + 1, [0]);
  }

  lemma FirstHas(s: seq<Chunk>)
    requires Separated(s) && s != []
    ensures s[0].Has(s[0].offset)
  {
  }

  // From the last data PDU on: the EOF, the checksum and the report.
  lemma Reports(cfg: Config, s: Rx, a: Rx, x: int, n: nat, temp: seq<uint8>) returns (t: Rx)
    requires 0 < s.cap && WellFormed(s.cap, s.chunks) && ValidConfig(cfg) && 0 < cfg.inactTicks && 0 < cfg.ackLimit
    requires Comes(cfg, s, a, x) && Steady(a, n, temp) && a.data.sub == DataNormal && a.flags.eofCount == 0
    requires |temp| == n
    requires forall y :: 0 <= y < n ==> Covers(a.chunks, y)
    ensures Comes(cfg, s, t, x) && t.data.finFs == FS_RETAINED && t.fsize == n
  {
    hide Comes, Recv, Tick, Steady, Announced, Separated, WellFormed, Covers, Checksum, RC.Computing, RC.Final, Words;
    hide CheckComplete;
    var env := Good(n);
    var b := Goes(cfg, s, a, x, Arrive(Packet(true, Eof(0, Checksum(temp), n)), env));
    TakesEof(cfg, a, n, temp);
    var c := Goes(cfg, s, b, x, Wakeup(env));
    WaitsForFile(cfg, b, n, temp);
    ClassOne(c, n, temp);
    var d := Goes(cfg, s, c, x, Arrive(Stray(), env));
    PutsOff(cfg, c, env);
    AnnouncedFacts(c, d, n, temp, cfg.inactTicks);
    var e := Goes(cfg, s, d, x, Wakeup(env));
    Completes(d, n, temp);
    RC.EntersValidate(cfg, d, env);
    TickKeepsNotes(cfg, d, env);
    StaysUnreliable(cfg, d, env);
    var f := Goes(cfg, s, e, x, Arrive(Stray(), env));
    PutsOff(cfg, e, env);
    PutOffComputes(e, f, 0, []);
    var g := Computes(cfg, s, f, x, 0, []);
    RC.WholeFile(f);
    assert temp[..n] == temp;
    t := Goes(cfg, s, g, x, Wakeup(env));
    RC.ResultDecides(cfg, g, env);
    TickKeepsNotes(cfg, g, env);
  }

  lemma ClassOne(st: Rx, n: nat, temp: seq<uint8>)
    requires exists k :: Announced(st.(inactTimer := k), n, temp)
    ensures st.phase == R1 && !st.reliable
  {
    hide Checksum;
  }

  lemma AnnouncedFacts(st: Rx, t: Rx, n: nat, temp: seq<uint8>, k: nat)
    requires Announced(st.(inactTimer := k + 1), n, temp) && t == st.(inactTimer := k) && 0 < k
    ensures t.Active() && t.Ok() && !t.com.inactFired && 0 < t.inactTimer && t.disk.fdOpen && t.flags.tempCreated
    ensures t.fsize == t.data.eofSize == n && t.disk.temp == temp && t.data.eofCrc == Checksum(temp)
    ensures t.phase == R1 && !t.reliable && !t.flags.sendNak && t.flags.eofCount != 0 && t.flags.mdRecv
  {
    hide Checksum;
  }

  lemma Completes(st: Rx, n: nat, temp: seq<uint8>)
    requires Separated(st.chunks) && st.fsize == n && !st.flags.sendNak && st.flags.eofCount != 0 && st.flags.mdRecv
    requires forall y :: 0 <= y < n ==> Covers(st.chunks, y)
    ensures CheckComplete(st)
  {
    hide Separated, Covers;
    Gaps.ReportsIffMissing(st.chunks, 1, n, 0);
  }

  // ---------- exactly when a report stands for bytes that arrived ----------

  ghost predicate WholeRun(cfg: Config, list: Handed, unack: bool, stale: Status, createOk: bool,
                           previous: Option<seq<uint8>>, es: seq<Event>)
    requires list.Proper() && 0 < cfg.crcBlock && AllValid(es)
  {
    SetupList(cfg, unack, Some(list), stale, createOk, previous);
    var st := Run(cfg, Setup(cfg, unack, Some(list), stale, createOk, previous), es);
    st.data.finFs == FS_RETAINED ==> Whole(st, es, [])
  }

  // In every run of a new transaction a RETAINED report stands for a file every byte of
  // which arrived, if and only if the list it was handed was empty. (A list that
  // remembers only the very last byte a file can have is left open.)
  lemma WholeIff(cfg: Config, list: Handed)
    requires list.Proper() && ValidConfig(cfg) && 0 < cfg.inactTicks && 0 < cfg.ackLimit && 0 < cfg.nameMax
    requires list.chunks != [] ==> list.chunks[0].offset + 2 <= U32_MAX
    ensures (forall unack, stale, createOk, previous, es ::
               AllValid(es) ==> WholeRun(cfg, list, unack, stale, createOk, previous, es))
            <==> list.chunks == []
  {
    hide Run, Setup, Whole;
    if list.chunks == [] {
      forall unack, stale, createOk, previous, es | AllValid(es)
        ensures WholeRun(cfg, list, unack, stale, createOk, previous, es)
      {
        RetentionSafety(cfg, unack, Some(list), stale, createOk, previous, es);
      }
    } else {
      var es := NotWhole(cfg, list);
      assert !WholeRun(cfg, list, true, ST_NO_ERROR, true, None, es);
    }
  }

  // A run that reports a file of which the first byte of the list never arrived.
  lemma NotWhole(cfg: Config, list: Handed) returns (es: seq<Event>)
    requires list.Proper() && ValidConfig(cfg) && 0 < cfg.inactTicks && 0 < cfg.ackLimit && 0 < cfg.nameMax
    requires list.chunks != [] && list.chunks[0].offset + 2 <= U32_MAX
    ensures AllValid(es) && !WholeRun(cfg, list, true, ST_NO_ERROR, true, None, es)
  {
    hide Recv, Run, Steady, Separated;
    var x, n := list.chunks[0].offset, list.chunks[0].offset + 2;
    var s := Setup(cfg, true, Some(list), ST_NO_ERROR, true, None);
    SetupList(cfg, true, Some(list), ST_NO_ERROR, true, None);
    Starts(cfg, s, x);
    TakesMetadata(cfg, list, n);
    var a := Goes(cfg, s, s, x, Arrive(Packet(true, Metadata(false, n, 0, 0)), Good(n)));
    var b, temp := AllButOne(cfg, list, s, a);
    var t := Reports(cfg, s, b, x, n, temp);
    es :| Leads(cfg, s, t, x, es);
    assert !Arrived(es, x) && !Covers([], x);
  }
}
