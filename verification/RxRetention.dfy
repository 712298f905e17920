/** What a RETAINED report says about the checksum of the file itself, over every run of a receiver. */
module RxRetention {
  import opened Cfdp
  import opened Crc
  import opened ChunkSpec
  import opened RxSpec
  import opened RxRuns
  import RC = RxChecksum

  // Between the start of the checksum and the disposal no file data are accepted.
  predicate Undisturbed(st: Rx, e: Event) {
    e.Arrive? && e.pkt.pdu.FileData? && st.Active() && st.Ok() && e.pkt.unacknowledged != st.reliable ==>
      st.data.sub != Validate && st.data.sub != FileStore
  }

  // ---------- the invariant ----------

  // The bytes digested are the file's up to the read position.
  function Seen(st: Rx): seq<uint8>
    requires st.disk.pos <= |st.disk.temp|
  {
    if st.disk.pos < st.fsize then st.disk.temp[..st.disk.pos] else Padded(st.disk.temp[..st.disk.pos])
  }

  ghost predicate Tracking(st: Rx) {
    && st.disk.fdOpen && st.data.cachedPos == st.disk.pos
    && st.disk.pos <= st.fsize && st.disk.pos <= |st.disk.temp|
    && Holds(st.crc, 0, Seen(st))
  }

  ghost predicate Summed(st: Rx) {
    st.fsize <= |st.disk.temp| && st.crc.result == Checksum(st.disk.temp[..st.fsize])
  }

  // The retained file, as far as its size was announced, has the checksum of the EOF.
  ghost predicate Matching(st: Rx) {
    && st.disk.retained.Some?
    && st.data.eofSize <= |st.disk.retained.value|
    && Checksum(st.disk.retained.value[..st.data.eofSize]) == st.data.eofCrc
  }

  ghost predicate SameReport(st: Rx, t: Rx) {
    && t.disk.retained == st.disk.retained && t.data.finFs == st.data.finFs
    && t.data.eofSize == st.data.eofSize && t.data.eofCrc == st.data.eofCrc
  }

  lemma SameReportMatches(st: Rx, t: Rx)
    requires SameReport(st, t) && (st.data.finFs == FS_RETAINED ==> Matching(st))
    ensures t.data.finFs == FS_RETAINED ==> Matching(t)
  {
  }

  ghost predicate Checked(st: Rx, next: Sub) {
    && (next == Validate && st.data.sub == Validate && st.Ok() && st.Active() ==> Tracking(st))
    && (next == FileStore && st.Ok() ==> Summed(st))
    && (st.data.finFs == FS_RETAINED ==> Matching(st))
  }

  // ---------- steps ----------

  lemma OthersKeepDisk(cfg: Config, st: Rx, pkt: Packet, env: Env)
    requires 0 < st.cap && Acceptable(pkt.pdu) && Undisturbed(st, Arrive(pkt, env))
    requires st.data.sub == Validate || st.data.sub == FileStore
    ensures var t := Recv(cfg, st, pkt, env);
            && t.disk == st.disk && t.data.cachedPos == st.data.cachedPos && t.data.sub == st.data.sub
            && t.fsize == st.fsize && t.crc == st.crc && (t.Ok() ==> st.Ok()) && t.phase == st.phase
  {
    hide ProcessFd, RecvEof, RecvMd;
    if pkt.pdu.Eof? {
      EofKeepsDisk(cfg, st, pkt.pdu.cc, pkt.pdu.crc, pkt.pdu.size);
    }
  }

  lemma EofKeepsDisk(cfg: Config, st: Rx, cc: nat, crc: nat, size: nat)
    ensures var t := RecvEof(cfg, st, cc, crc, size);
            && t.disk == st.disk && t.data.cachedPos == st.data.cachedPos && t.data.sub == st.data.sub
            && t.fsize == st.fsize && t.crc == st.crc && (t.Ok() ==> st.Ok()) && t.phase == st.phase && t.com == st.com
  {
  }

  lemma ArriveChecked(cfg: Config, st: Rx, pkt: Packet, env: Env)
    requires 0 < st.cap && Acceptable(pkt.pdu) && Undisturbed(st, Arrive(pkt, env)) && Checked(st, st.data.sub)
    requires st.data.finFs == FS_RETAINED ==> st.flags.eofCount != 0
    ensures var t := Recv(cfg, st, pkt, env);
            Checked(t, t.data.sub)
  {
    hide Recv, Holds, Checksum, Add;
    RecvHandles(cfg, st, pkt, env);
    if st.data.sub == Validate || st.data.sub == FileStore {
      OthersKeepDisk(cfg, st, pkt, env);
    }
  }

  // One stretch, with any outcome of the reads.
  lemma ChunkChecked(cfg: Config, st: Rx, env: Env)
    requires 0 < cfg.crcBlock && Tracking(st) && st.data.cachedPos != st.fsize && st.data.sub == Validate && st.Ok()
    ensures var t := CalcCrcChunk(cfg, st, env);
            t.Ok() ==> Tracking(t)
  {
    hide Holds, CrcLoop, Digest, Finalize;
    var temp, from := st.disk.temp, st.disk.pos;
    var r := RC.LoopOf(cfg, st, env);
    RC.CrcLoopDigests(cfg, st.fsize, temp, CrcRun(st.data.cachedPos, from, st.crc, true), 0,
                      if st.disk.fdOpen then env.okReads else 0);
    var bytes := if from < r.pos then temp[from..r.pos] else [];
    DigestExtends(st.crc, 0, temp[..from], bytes);
    FinalizePads(r.crc, temp[..from] + bytes);
    assert from < r.pos ==> temp[..from] + bytes == temp[..r.pos];
    assert from == r.pos ==> temp[..from] + bytes == temp[..from];
  }

  lemma StartChecked(st: Rx, env: Env)
    ensures var t := CalcCrcStart(st, env);
            t.Ok() ==> Tracking(t)
  {
    hide Holds;
    EmptyHolds();
    assert st.disk.temp[..0] == [] && Padded([]) == [];
  }

  // At the end of the file.
  lemma EndSums(st: Rx)
    requires Tracking(st) && st.data.cachedPos == st.fsize
    ensures Summed(st)
  {
    hide Holds, Checksum;
    var d := st.disk.temp[..st.fsize];
    UnfinalizedResult(st.crc, Padded(d));
    PaddedWords(d);
    PaddedChecksum(d);
  }

  lemma ValidateChecked(cfg: Config, st: Rx, env: Env)
    requires 0 < cfg.crcBlock && Checked(st, Validate) && st.data.sub == Validate && st.Active()
    ensures var (t, next) := CheckValidate(cfg, st, env);
            Checked(t, next) && (next == Validate || next == FileStore)
  {
    hide CalcCrcChunk, Holds, Checksum;
    if st.Ok() && st.data.cachedPos == st.fsize {
      EndSums(st);
    } else if st.Ok() {
      ChunkChecked(cfg, st, env);
      ChunkKeepsReport(cfg, st, env);
    }
  }

  lemma ChunkKeepsReport(cfg: Config, st: Rx, env: Env)
    requires 0 < cfg.crcBlock
    ensures var t := CalcCrcChunk(cfg, st, env);
            SameReport(st, t) && t.data.sub == st.data.sub
  {
    hide CrcLoop, Finalize;
  }

  lemma StoreChecked(st: Rx, env: Env)
    requires Checked(st, FileStore) && st.data.finFs != FS_RETAINED && (st.Ok() ==> st.fsize == st.data.eofSize)
    ensures var t := HandleFileRetention(st, env);
            t.data.finFs == FS_RETAINED ==> Matching(t)
  {
    hide Checksum;
  }

  // Nothing reported before, and no FILESTORE without an error.
  lemma StillChecked(st: Rx, t: Rx)
    requires SameReport(st, t) && (st.data.finFs == FS_RETAINED ==> Matching(st))
    requires t.data.sub == FileStore ==> !t.Ok()
    requires t.data.sub == Validate && t.Ok() ==> Tracking(t)
    ensures Checked(t, t.data.sub)
  {
    hide Matching, Tracking, Summed;
    SameReportMatches(st, t);
  }

  lemma EofStateChecked(cfg: Config, st: Rx, env: Env)
    requires Separated(st.chunks) && 0 < cfg.crcBlock && Checked(st, DataEof) && st.data.sub == DataEof
    ensures var t := CheckState(cfg, st, env);
            Checked(t, t.data.sub)
  {
    hide CheckState, Separated, Checked, Tracking, Matching, CheckComplete;
    ReportBefore(st, DataEof);
    if st.Ok() && CheckComplete(st) {
      var a := st.(com := st.com.(isComplete := true, ackArmed := false), data := st.data.(sub := Validate));
      EntersChecksum(cfg, st, env);
      StartChecked(a, env);
      StartKeepsReport(a, env);
    } else {
      WaitsForData(cfg, st, env);
    }
    StillChecked(st, CheckState(cfg, st, env));
  }

  lemma ReportBefore(st: Rx, next: Sub)
    requires Checked(st, next)
    ensures st.data.finFs == FS_RETAINED ==> Matching(st)
  {
    hide Matching, Tracking, Summed;
  }

  lemma EntersChecksum(cfg: Config, st: Rx, env: Env)
    requires Separated(st.chunks) && 0 < cfg.crcBlock && st.data.sub == DataEof && st.Ok() && CheckComplete(st)
    ensures CheckState(cfg, st, env)
         == CalcCrcStart(st.(com := st.com.(isComplete := true, ackArmed := false),
           data := st.data.(sub := Validate)), env)
  {
    hide Separated, CheckComplete, CalcCrcStart;
  }

  lemma WaitsForData(cfg: Config, st: Rx, env: Env)
    requires Separated(st.chunks) && 0 < cfg.crcBlock && st.data.sub == DataEof && !(st.Ok() && CheckComplete(st))
    ensures var t := CheckState(cfg, st, env);
            SameReport(st, t) && t.data.sub != Validate && (t.data.sub == FileStore ==> !t.Ok())
  {
    hide Separated, CheckComplete;
  }

  lemma ValidateStateChecked(cfg: Config, st: Rx, env: Env)
    requires Separated(st.chunks) && 0 < cfg.crcBlock && Checked(st, Validate) && st.data.sub == Validate && st.Active()
    ensures var t := CheckState(cfg, st, env);
            Checked(t, t.data.sub)
  {
    hide Separated, Holds, Checksum, CalcCrcChunk, Checked;
    ValidateChecked(cfg, st, env);
    var (a, next) := CheckValidate(cfg, st, env);
    ChunkKeepsReport(cfg, st, env);
    assert a.data.sub == Validate;
    EnterChecked(cfg, a, next, env);
  }

  lemma EnterChecked(cfg: Config, st: Rx, next: Sub, env: Env)
    requires Checked(st, next) && st.data.sub == Validate && (next == Validate || next == FileStore)
    ensures var t := if next == Validate then st else Enter(cfg, st, next, env);
            Checked(t, t.data.sub)
  {
    hide Holds, Checksum;
  }

  lemma StoreStateChecked(cfg: Config, st: Rx, es: seq<Event>, left: seq<Chunk>, env: Env)
    requires Separated(st.chunks) && 0 < cfg.crcBlock && Checked(st, FileStore) && st.data.sub == FileStore
    requires Inv(st, es, left)
    ensures var t := CheckState(cfg, st, env);
            Checked(t, t.data.sub)
  {
    hide Separated, Holds, Checksum, HandleFileRetention, Whole, Covers, Arrived;
    StoreChecked(st, env);
  }

  lemma OtherStateChecked(cfg: Config, st: Rx, env: Env)
    requires Separated(st.chunks) && 0 < cfg.crcBlock && Checked(st, st.data.sub)
    requires st.data.sub == DataNormal || st.data.sub == FinAck || st.data.sub == Complete
    ensures var t := CheckState(cfg, st, env);
            Checked(t, t.data.sub)
  {
    hide Separated, Holds, Checksum;
  }

  lemma CheckStateChecked(cfg: Config, st: Rx, es: seq<Event>, left: seq<Chunk>, env: Env)
    requires Separated(st.chunks) && 0 < cfg.crcBlock && Inv(st, es, left) && Checked(st, st.data.sub) && st.Active()
    ensures var t := CheckState(cfg, st, env);
            Checked(t, t.data.sub)
  {
    hide CheckState, Separated, Checked, Inv;
    match st.data.sub {
      case DataEof => EofStateChecked(cfg, st, env);
      case Validate => ValidateStateChecked(cfg, st, env);
      case FileStore => StoreStateChecked(cfg, st, es, left, env);
      case _ => OtherStateChecked(cfg, st, env);
    }
  }

  lemma StartKeepsReport(st: Rx, env: Env)
    ensures var t := CalcCrcStart(st, env);
            SameReport(st, t) && t.data.sub == st.data.sub
  {
  }

  lemma QuietChecked(st: Rx, t: Rx)
    requires Checked(st, st.data.sub) && (Quiet(st, t) || Timed(st, t))
    ensures Checked(t, t.data.sub)
  {
    hide Holds, Checksum;
  }

  lemma TickChecked(cfg: Config, st: Rx, es: seq<Event>, left: seq<Chunk>, env: Env)
    requires 0 < st.cap && Separated(st.chunks) && 0 < cfg.crcBlock && Inv(st, es, left) && Checked(st, st.data.sub)
    ensures var t := Tick(cfg, st, env).rx;
            Checked(t, t.data.sub)
  {
    hide CheckState, Maintain, Separated, Inv, Checked, Timed, Quiet, InactivityTick, AckTimerTick;
    var b := AckTimerTick(InactivityTick(st));
    TimersTimed(st);
    TimedList(st, InactivityTick(st));
    TimedList(st, b);
    QuietInv(st, b, es, left);
    QuietChecked(st, InactivityTick(st));
    QuietChecked(st, b);
    if st.Active() {
      CheckStateChecked(cfg, b, es, left, env);
    }
    MaintainQuiet(cfg, TickState(cfg, st, env), env.bufOk);
    QuietChecked(TickState(cfg, st, env), Tick(cfg, st, env).rx);
  }

  lemma TimedList(st: Rx, t: Rx)
    requires Timed(st, t)
    ensures t.chunks == st.chunks && t.cap == st.cap && t.phase == st.phase
  {
  }

  // ---------- runs ----------

  ghost predicate AllUndisturbed(cfg: Config, st: Rx, es: seq<Event>)
    requires 0 < st.cap && WellFormed(st.cap, st.chunks) && 0 < cfg.crcBlock
    requires forall k :: 0 <= k < |es| ==> ValidEvent(es[k])
  {
    forall i {:trigger es[i]} :: 0 <= i < |es| ==> Undisturbed(Run(cfg, st, es[..i]), es[i])
  }

  lemma {:induction false} RunChecked(cfg: Config, st: Rx, es: seq<Event>, left: seq<Chunk>)
    requires 0 < st.cap && WellFormed(st.cap, st.chunks) && 0 < cfg.crcBlock
    requires Inv(st, [], left) && Checked(st, st.data.sub)
    requires (forall k :: 0 <= k < |es| ==> ValidEvent(es[k])) && AllUndisturbed(cfg, st, es)
    ensures var t := Run(cfg, st, es);
            Checked(t, t.data.sub) && Inv(t, es, left)
    decreases |es|
  {
    hide Run, Checked, Inv, Step, AllUndisturbed;
    RunInv(cfg, st, es, left);
    if es != [] {
      var front := es[..|es| - 1];
      FrontUndisturbed(cfg, st, es);
      RunChecked(cfg, st, front, left);
      RC.ListSeparated(Run(cfg, st, front));
      StepChecked(cfg, Run(cfg, st, front), front, left, es[|es| - 1]);
      RunBack(cfg, st, es);
    } else {
      RunNone(cfg, st);
    }
  }

  lemma RunBack(cfg: Config, st: Rx, es: seq<Event>)
    requires 0 < st.cap && WellFormed(st.cap, st.chunks) && 0 < cfg.crcBlock && es != []
    requires forall k :: 0 <= k < |es| ==> ValidEvent(es[k])
    ensures var last := Run(cfg, st, es[..|es| - 1]);
            && 0 < last.cap && Separated(last.chunks) && ValidEvent(es[|es| - 1])
            && Run(cfg, st, es) == Step(cfg, last, es[|es| - 1])
  {
    hide Step;
  }

  lemma RunNone(cfg: Config, st: Rx)
    requires 0 < st.cap && WellFormed(st.cap, st.chunks) && 0 < cfg.crcBlock
    ensures Run(cfg, st, []) == st
  {
  }

  lemma FrontUndisturbed(cfg: Config, st: Rx, es: seq<Event>)
    requires 0 < st.cap && WellFormed(st.cap, st.chunks) && 0 < cfg.crcBlock && es != []
    requires (forall k :: 0 <= k < |es| ==> ValidEvent(es[k])) && AllUndisturbed(cfg, st, es)
    ensures AllUndisturbed(cfg, st, es[..|es| - 1]) && Undisturbed(Run(cfg, st, es[..|es| - 1]), es[|es| - 1])
  {
    hide Run, Undisturbed;
    var front := es[..|es| - 1];
    forall i | 0 <= i < |front| ensures Undisturbed(Run(cfg, st, front[..i]), front[i]) {
      assert front[..i] == es[..i] && front[i] == es[i];
    }
  }

  lemma StepChecked(cfg: Config, st: Rx, es: seq<Event>, left: seq<Chunk>, e: Event)
    requires 0 < st.cap && Separated(st.chunks) && 0 < cfg.crcBlock && ValidEvent(e)
    requires Inv(st, es, left) && Checked(st, st.data.sub) && Undisturbed(st, e)
    ensures var t := Step(cfg, st, e);
            Checked(t, t.data.sub)
  {
    hide Recv, Tick, Separated, Checked, Undisturbed;
    match e {
      case Arrive(pkt, env) =>
        ReportedHasEof(st, es, left);
        ArriveChecked(cfg, st, pkt, env);
      case Wakeup(env) => TickChecked(cfg, st, es, left, env);
      case _ => CommandChecked(cfg, st);
    }
  }

  lemma ReportedHasEof(st: Rx, es: seq<Event>, left: seq<Chunk>)
    requires Inv(st, es, left)
    ensures st.data.finFs == FS_RETAINED ==> st.flags.eofCount != 0
  {
  }

  lemma CommandChecked(cfg: Config, st: Rx)
    requires Checked(st, st.data.sub)
    ensures Checked(Cancel(st), st.data.sub)
    ensures Checked(Finish(cfg, st), st.data.sub)
    ensures Cancel(st).data.sub == st.data.sub && Finish(cfg, st).data.sub == st.data.sub
  {
    hide Holds, Checksum;
  }

  // In every run of a new transaction in which no file data are accepted between the
  // start of the checksum and the disposal of the file, with any other PDUs and any
  // outcome of the calls: a RETAINED report means that the file under the final name
  // has, over the size announced, the checksum of the EOF.
  lemma RetainedMatchesEof(cfg: Config, unack: bool, list: Option<Handed>, stale: Status, createOk: bool,
                           previous: Option<seq<uint8>>, es: seq<Event>)
    requires Usable(list) && 0 < cfg.crcBlock && forall k :: 0 <= k < |es| ==> ValidEvent(es[k])
    ensures var start := Setup(cfg, unack, list, stale, createOk, previous);
            && 0 < start.cap && WellFormed(start.cap, start.chunks)
            && (AllUndisturbed(cfg, start, es) ==>
                  var t := Run(cfg, start, es);
                  t.data.finFs == FS_RETAINED ==> Matching(t))
  {
    hide AllUndisturbed, Run;
    var start := Setup(cfg, unack, list, stale, createOk, previous);
    SetupList(cfg, unack, list, stale, createOk, previous);
    if AllUndisturbed(cfg, start, es) {
      SetupInv(cfg, unack, list, stale, createOk, previous);
      RunChecked(cfg, start, es, Got(list).chunks);
    }
  }
}
