/** The receiver's checksum of the temporary file, computed a limited number of bytes per wakeup. */
module RxChecksum {
  import opened Cfdp
  import opened Crc
  import opened ChunkSpec
  import Gaps
  import opened RxSpec
  import opened RxRuns

  // ---------- the read loop ----------

  lemma SliceConcat(d: seq<uint8>, a: nat, b: nat, c: nat)
    requires a <= b <= c <= |d|
    ensures d[a..b] + d[b..c] == d[a..c]
  {
  }

  // With all reads succeeding, one call reads up to the rate or to the end of the file.
  lemma {:induction false} CrcLoopExact(cfg: Config, fsize: nat, temp: seq<uint8>, run: CrcRun, count: nat,
                                        okReads: nat)
    requires ValidConfig(cfg) && count % cfg.crcBlock == 0 && count <= cfg.crcRate
    requires run.pos == run.cachedPos <= fsize <= |temp| && run.success && fsize - run.cachedPos <= okReads
    ensures var end := Min(fsize, run.cachedPos + (cfg.crcRate - count));
            CrcLoop(cfg, fsize, temp, run, count, okReads) ==
              CrcRun(end, end, Digest(run.crc, temp[run.cachedPos..end]), true)
    decreases fsize - run.cachedPos
  {
    hide Digest;
    var at := run.cachedPos;
    if count < cfg.crcRate && at < fsize {
      var n := Min(cfg.crcBlock, fsize - at);
      BlockFits(cfg.crcBlock, cfg.crcRate, count);
      var next := CrcRun(at + n, at + n, Digest(run.crc, temp[at..at + n]), true);
      assert CrcLoop(cfg, fsize, temp, run, count, okReads) == CrcLoop(cfg, fsize, temp, next, count + n, okReads - 1);
      if n == cfg.crcBlock {
        CrcLoopExact(cfg, fsize, temp, next, count + n, okReads - 1);
        hide CrcLoop;
        var end := Min(fsize, at + (cfg.crcRate - count));
        assert end == Min(fsize, at + n + (cfg.crcRate - (count + n)));
        DigestConcat(run.crc, temp[at..at + n], temp[at + n..end]);
        SliceConcat(temp, at, at + n, end);
      } else {
        assert CrcLoop(cfg, fsize, temp, next, count + n, okReads - 1) == next;
      }
    } else {
      EmptyDigest(run.crc);
      assert temp[at..at] == [];
    }
  }

  lemma EmptyDigest(c: State)
    ensures Digest(c, []) == c
  {
  }

  // A multiple of the block below the rate is at least one block below it.
  lemma BlockFits(block: nat, rate: nat, count: nat)
    requires 0 < block && rate % block == 0 && count % block == 0
    ensures count < rate ==> count + block <= rate
    ensures (count + block) % block == 0
  {
    var q, p := rate / block, count / block;
    assert rate == block * q && count == block * p;
    MulSign(block, q - p);
    assert block * (q - p) == rate - count;
    ModIs(count + block, block, p + 1, 0);
  }

  // ---------- rounding up ----------

  function CeilDiv(a: nat, b: nat): nat
    requires 0 < b
  {
    (a + b - 1) / b
  }

  lemma CeilDivStep(a: nat, b: nat)
    requires 0 < b
    ensures a == 0 ==> CeilDiv(a, b) == 0
    ensures 0 < a ==> CeilDiv(a, b) == 1 + CeilDiv(a - Min(a, b), b)
  {
    hide CeilDiv;
    CeilDivLow(a, b);
    CeilDivLow(0, b);
    if b < a {
      CeilDivHigh(a, b);
    }
  }

  lemma CeilDivGrows(a: nat, c: nat, b: nat)
    requires 0 < b && a <= c
    ensures CeilDiv(a, b) <= CeilDiv(c, b)
  {
    var x, y := a + b - 1, c + b - 1;
    assert x == b * (x / b) + x % b && y == b * (y / b) + y % b;
    MulSign(b, x / b - y / b);
    assert b * (x / b - y / b) == b * (x / b) - b * (y / b);
  }

  lemma CeilDivLow(a: nat, b: nat)
    requires 0 < b
    ensures a == 0 ==> CeilDiv(a, b) == 0
    ensures 0 < a <= b ==> CeilDiv(a, b) == 1
  {
    if a == 0 {
      DivIs(b - 1, b, 0, b - 1);
    } else if a <= b {
      DivIs(a + b - 1, b, 1, a - 1);
    }
  }

  lemma CeilDivHigh(a: nat, b: nat)
    requires 0 < b < a
    ensures CeilDiv(a, b) == 1 + CeilDiv(a - b, b)
  {
    var q, r := (a - 1) / b, (a - 1) % b;
    assert a - 1 == b * q + r;
    assert b * (q + 1) == b * q + b;
    DivIs(a + b - 1, b, q + 1, r);
  }

  lemma DivIs(x: nat, m: nat, q: nat, r: nat)
    requires r < m && x == m * q + r
    ensures x / m == q
  {
    ModIs(x, m, q, r);
    assert m * (x / m) == m * q;
    MulSign(m, x / m - q);
  }

  // ---------- wakeups in VALIDATE ----------

  // The read position is `k`, and the bytes digested so far are `d`.
  ghost predicate Computing(st: Rx, k: nat, d: seq<uint8>) {
    && st.Ok() && st.disk.fdOpen
    && st.data.cachedPos == st.disk.pos == k <= st.fsize <= |st.disk.temp|
    && Holds(st.crc, 0, d)
  }

  ghost predicate Validating(st: Rx, k: nat, d: seq<uint8>) {
    Computing(st, k, d) && st.Active() && st.data.sub == Validate && !st.com.inactFired
  }

  // What will have been digested at the end of the file, where the register is
  // finalized if any bytes were left.
  function Final(st: Rx, k: nat, d: seq<uint8>): seq<uint8>
    requires st.fsize <= |st.disk.temp|
  {
    if k < st.fsize then Padded(d + st.disk.temp[k..st.fsize]) else d
  }

  // One stretch further.
  function Further(cfg: Config, st: Rx, k: nat, d: seq<uint8>): (nat, seq<uint8>)
    requires k <= st.fsize <= |st.disk.temp|
  {
    var end := Min(st.fsize, k + cfg.crcRate);
    var e := d + st.disk.temp[k..end];
    (end, if k < end == st.fsize then Padded(e) else e)
  }

  lemma FurtherFinal(cfg: Config, st: Rx, t: Rx, k: nat, d: seq<uint8>)
    requires k <= st.fsize <= |st.disk.temp| && SameFile(st, t) && 0 < cfg.crcRate
    ensures var (end, e) := Further(cfg, st, k, d);
            Final(t, end, e) == Final(st, k, d)
  {
    var end := Min(st.fsize, k + cfg.crcRate);
    var temp := st.disk.temp;
    if k == end {
      assert d + temp[k..end] == d;
    } else {
      assert d + temp[k..end] + temp[end..st.fsize] == d + temp[k..st.fsize];
    }
  }

  // What the checksum leaves alone.
  ghost predicate SameFile(st: Rx, t: Rx) {
    && t.disk.temp == st.disk.temp && t.disk.retained == st.disk.retained && t.fsize == st.fsize
    && t.flags.tempCreated == st.flags.tempCreated && t.com.isComplete == st.com.isComplete
    && t.data.eofCrc == st.data.eofCrc
  }

  lemma StartComputes(st: Rx, env: Env)
    requires st.Ok() && st.disk.fdOpen && env.seekOk && st.fsize == st.data.eofSize && st.fsize <= |st.disk.temp|
    ensures Computing(CalcCrcStart(st, env), 0, []) && SameFile(st, CalcCrcStart(st, env))
  {
    EmptyHolds();
  }

  lemma ChunkComputes(cfg: Config, st: Rx, k: nat, d: seq<uint8>, env: Env)
    requires ValidConfig(cfg) && Computing(st, k, d) && k < st.fsize && st.fsize <= env.okReads
    ensures var t := CalcCrcChunk(cfg, st, env);
            var (end, e) := Further(cfg, st, k, d);
            Computing(t, end, e) && SameFile(st, t)
  {
    hide Digest, Finalize, Holds;
    var temp, end := st.disk.temp, Min(st.fsize, k + cfg.crcRate);
    CrcLoopExact(cfg, st.fsize, temp, CrcRun(k, k, st.crc, true), 0, env.okReads);
    DigestExtends(st.crc, 0, d, temp[k..end]);
    FinalizePads(Digest(st.crc, temp[k..end]), d + temp[k..end]);
    hide CrcLoop;
  }

  // The timers do not touch the computation, nor does sending.
  lemma TimersCompute(st: Rx, k: nat, d: seq<uint8>)
    requires Validating(st, k, d) && 0 < st.inactTimer
    ensures var b := AckTimerTick(InactivityTick(st));
            Validating(b, k, d) && SameFile(st, b) && b.inactTimer == st.inactTimer - 1
  {
    hide Holds;
  }

  lemma SendingComputes(cfg: Config, st: Rx, k: nat, d: seq<uint8>, bufOk: bool)
    requires 0 < st.cap && Separated(st.chunks) && Computing(st, k, d)
    ensures var t := Maintain(cfg, st, bufOk).0;
            && Computing(t, k, d) && SameFile(st, t) && t.data == st.data && t.phase == st.phase
            && t.com.inactFired == st.com.inactFired && t.inactTimer == st.inactTimer
  {
    hide Maintain, Separated, Holds;
    MaintainQuiet(cfg, st, bufOk);
  }

  lemma CheckComputes(cfg: Config, st: Rx, k: nat, d: seq<uint8>, env: Env)
    requires Separated(st.chunks) && ValidConfig(cfg) && Validating(st, k, d) && st.fsize <= env.okReads
    ensures var t := CheckState(cfg, st, env);
            var (end, e) := Further(cfg, st, k, d);
            && SameFile(st, t) && t.inactTimer == st.inactTimer && t.Active() && !t.com.inactFired
            && (if k < st.fsize then Validating(t, end, e) else t.data.sub == FileStore && Computing(t, k, d))
  {
    hide CalcCrcChunk, Separated, Holds, Further;
    if k < st.fsize {
      ChunkComputes(cfg, st, k, d, env);
      ChunkKeeps(cfg, st, env);
    }
  }

  lemma ChunkKeeps(cfg: Config, st: Rx, env: Env)
    requires 0 < cfg.crcBlock
    ensures var t := CalcCrcChunk(cfg, st, env);
            && t.phase == st.phase && t.data.sub == st.data.sub && t.inactTimer == st.inactTimer
            && t.com.inactFired == st.com.inactFired
  {
    hide CrcLoop, Finalize;
  }

  lemma ValidateTick(cfg: Config, st: Rx, k: nat, d: seq<uint8>, env: Env)
    requires 0 < st.cap && Separated(st.chunks) && ValidConfig(cfg) && Validating(st, k, d) && 0 < st.inactTimer
    requires st.fsize <= env.okReads
    ensures var t := Tick(cfg, st, env).rx;
            var (end, e) := Further(cfg, st, k, d);
            && SameFile(st, t) && t.inactTimer == st.inactTimer - 1 && t.Active() && !t.com.inactFired
            && (if k < st.fsize then Validating(t, end, e) else t.data.sub == FileStore && Computing(t, k, d))
  {
    hide CheckState, Maintain, InactivityTick, AckTimerTick, Separated, Holds, Further;
    var b := AckTimerTick(InactivityTick(st));
    TimersTimed(st);
    TimersCompute(st, k, d);
    CheckComputes(cfg, b, k, d, env);
    SameFurther(cfg, st, b, k, d);
    var (end, e) := Further(cfg, st, k, d);
    if k < st.fsize {
      SendingComputes(cfg, TickState(cfg, st, env), end, e, env.bufOk);
    } else {
      SendingComputes(cfg, TickState(cfg, st, env), k, d, env.bufOk);
    }
  }

  lemma SameFurther(cfg: Config, st: Rx, t: Rx, k: nat, d: seq<uint8>)
    requires k <= st.fsize <= |st.disk.temp| && SameFile(st, t)
    ensures Further(cfg, t, k, d) == Further(cfg, st, k, d)
  {
  }

  // From any read position, with reads that succeed and nothing arriving: the
  // transaction is in VALIDATE for exactly ceil(bytes left / rate) wakeups, and with
  // the next one in FILESTORE, with the checksum of the complete words of what was
  // digested.
  lemma {:induction false} ChecksumInWakeups(cfg: Config, st: Rx, k: nat, d: seq<uint8>, envs: seq<Env>)
    requires 0 < st.cap && Separated(st.chunks) && ValidConfig(cfg) && Validating(st, k, d)
    requires |envs| <= CeilDiv(st.fsize - k, cfg.crcRate) + 1 && |envs| <= st.inactTimer
    requires forall i :: 0 <= i < |envs| ==> st.fsize <= envs[i].okReads
    ensures var t := Ticks(cfg, st, envs).0;
            && t.Ok() && t.Active() && SameFile(st, t) && !t.com.inactFired && t.inactTimer == st.inactTimer - |envs|
            && (if |envs| <= CeilDiv(st.fsize - k, cfg.crcRate) then t.data.sub == Validate
                else t.data.sub == FileStore && t.crc.result == Checksum(Words(Final(st, k, d))))
    decreases |envs|
  {
    hide Tick, Computing, Separated, CeilDiv, Checksum, Further, Final, Words;
    ComputingHere(st, k, d);
    CeilDivStep(st.fsize - k, cfg.crcRate);
    if envs != [] {
      TickKeepsList(cfg, st, envs[0]);
      ValidateTick(cfg, st, k, d, envs[0]);
      var t := Tick(cfg, st, envs[0]).rx;
      if k < st.fsize {
        var (end, e) := Further(cfg, st, k, d);
        FurtherEnd(cfg, st, k, d);
        FurtherFinal(cfg, st, t, k, d);
        ChecksumInWakeups(cfg, t, end, e, envs[1..]);
      } else {
        assert envs[1..] == [];
        DoneResult(t, d);
        assert Final(st, k, d) == d by { AtTheEnd(st, k, d); }
      }
    }
  }

  lemma FurtherEnd(cfg: Config, st: Rx, k: nat, d: seq<uint8>)
    requires k <= st.fsize <= |st.disk.temp|
    ensures Further(cfg, st, k, d).0 == Min(st.fsize, k + cfg.crcRate)
  {
  }

  lemma AtTheEnd(st: Rx, k: nat, d: seq<uint8>)
    requires st.fsize <= k && st.fsize <= |st.disk.temp|
    ensures Final(st, k, d) == d
  {
  }

  lemma DoneResult(st: Rx, d: seq<uint8>)
    requires Computing(st, st.fsize, d)
    ensures st.crc.result == Checksum(Words(d)) && st.Ok()
  {
    hide Holds, Checksum;
    UnfinalizedResult(st.crc, d);
  }

  lemma ComputingHere(st: Rx, k: nat, d: seq<uint8>)
    requires Computing(st, k, d)
    ensures st.Ok() && st.data.cachedPos == k && k <= st.fsize <= |st.disk.temp|
  {
  }

  // Undisturbed, that is the checksum of the file, from the empty file on.
  lemma WholeFile(st: Rx)
    requires st.fsize <= |st.disk.temp|
    ensures Checksum(Words(Final(st, 0, []))) == Checksum(st.disk.temp[..st.fsize])
  {
    hide Checksum;
    var d := st.disk.temp[..st.fsize];
    if 0 < st.fsize {
      assert [] + st.disk.temp[0..st.fsize] == d;
      PaddedWords(d);
      PaddedChecksum(d);
    } else {
      assert d == [] && Words([]) == [];
    }
  }

  // The wakeup that finds the file complete starts the computation.
  lemma EntersValidate(cfg: Config, st: Rx, env: Env)
    requires 0 < st.cap && Separated(st.chunks) && 0 < cfg.crcBlock && CheckComplete(st)
    requires st.Active() && st.data.sub == DataEof && st.Ok() && !st.com.inactFired && 0 < st.inactTimer
    requires st.disk.fdOpen && env.seekOk && st.fsize == st.data.eofSize && st.fsize <= |st.disk.temp|
    ensures var t := Tick(cfg, st, env).rx;
            Validating(t, 0, []) && t.inactTimer == st.inactTimer - 1 && t.disk.temp == st.disk.temp &&
              t.fsize == st.fsize
            && t.com.isComplete
  {
    hide Maintain, Separated, Gaps.Reported, Computing, CalcCrcStart;
    var b := AckTimerTick(InactivityTick(st));
    assert CheckComplete(b);
    var a := b.(com := b.com.(isComplete := true, ackArmed := false), data := b.data.(sub := Validate));
    assert CheckState(cfg, b, env) == CalcCrcStart(a, env);
    StartComputes(a, env);
    StartKeeps(a, env);
    SendingComputes(cfg, CalcCrcStart(a, env), 0, [], env.bufOk);
  }

  lemma StartKeeps(st: Rx, env: Env)
    ensures var t := CalcCrcStart(st, env);
            && t.phase == st.phase && t.data.sub == st.data.sub && t.inactTimer == st.inactTimer
            && t.com.inactFired == st.com.inactFired && t.cap == st.cap && t.chunks == st.chunks
  {
  }

  // FILESTORE comes with the checksum of the file after exactly the wakeups that
  // ceil(size / rate) gives, and one.
  lemma FileInWakeups(cfg: Config, st: Rx, envs: seq<Env>)
    requires 0 < st.cap && Separated(st.chunks) && ValidConfig(cfg) && Validating(st, 0, [])
    requires |envs| <= CeilDiv(st.fsize, cfg.crcRate) + 1 && |envs| <= st.inactTimer
    requires forall i :: 0 <= i < |envs| ==> st.fsize <= envs[i].okReads
    ensures var t := Ticks(cfg, st, envs).0;
            && t.Ok() && SameFile(st, t)
            && (if |envs| <= CeilDiv(st.fsize, cfg.crcRate) then t.data.sub == Validate
                else t.data.sub == FileStore && t.crc.result == Checksum(st.disk.temp[..st.fsize]))
  {
    hide Ticks, Separated, Computing, Checksum, CeilDiv, Final;
    ComputingHere(st, 0, []);
    ChecksumInWakeups(cfg, st, 0, [], envs);
    WholeFile(st);
  }

  // Sender and receiver agree: digesting the file in whatever pieces it was sent
  // in gives the checksum the receiver has when it disposes of the file.
  lemma BothEndsAgree(cfg: Config, st: Rx, envs: seq<Env>, pieces: seq<seq<uint8>>)
    requires 0 < st.cap && Separated(st.chunks) && ValidConfig(cfg) && Validating(st, 0, [])
    requires |envs| == CeilDiv(st.fsize, cfg.crcRate) + 1 <= st.inactTimer
    requires forall i :: 0 <= i < |envs| ==> st.fsize <= envs[i].okReads
    requires Flatten(pieces) == st.disk.temp[..st.fsize]
    ensures var t := Ticks(cfg, st, envs).0;
            t.data.sub == FileStore && t.Ok() && t.crc.result == Finalize(DigestParts(START, pieces)).result
  {
    hide Ticks, Separated, Computing, Checksum, Finalize, CeilDiv, Final;
    ComputingHere(st, 0, []);
    ChecksumInWakeups(cfg, st, 0, [], envs);
    WholeFile(st);
    StreamingComputesChecksum(pieces);
  }

  // ---------- file data that arrive while the checksum is computed ----------

  // Writing the same bytes again changes nothing but the positions and the
  // retry count (and the chunk list, which covers the whole file anyway).
  lemma RewriteSame(temp: seq<uint8>, off: nat, data: seq<uint8>)
    requires off + |data| <= |temp| && temp[off..off + |data|] == data
    ensures WriteAt(temp, off, data) == temp
  {
  }

  lemma WriteInside(temp: seq<uint8>, off: nat, data: seq<uint8>)
    requires off + |data| <= |temp|
    ensures var file := WriteAt(temp, off, data);
            |file| == |temp| && file[off + |data|..] == temp[off + |data|..]
  {
  }

  lemma DataMoves(st: Rx, off: nat, data: seq<uint8>, env: Env)
    requires 0 < st.cap && st.disk.fdOpen && env.seekOk && |data| <= env.written
    requires st.data.cachedPos == st.disk.pos
    ensures var end := off + |data|;
            ProcessFd(st, off, data, env) ==
              st.(disk := st.disk.(pos := end, temp := WriteAt(st.disk.temp, off, data)),
                  data := st.data.(cachedPos := end, acknak := 0),
                  chunks := Add(st.cap, st.chunks, Chunk(off, |data|)))
  {
    assert data[..|data|] == data;
    hide Add, WriteAt;
  }

  // A PDU that is accepted in VALIDATE moves the read position to its own end;
  // the register knows nothing of it.
  lemma DataMovesOn(cfg: Config, st: Rx, k: nat, d: seq<uint8>, off: nat, data: seq<uint8>, env: Env)
    requires 0 < st.cap && WellFormed(st.cap, st.chunks) && Validating(st, k, d) && Acceptable(FileData(off, data))
    requires env.seekOk && |data| <= env.written && off + |data| <= st.fsize
    ensures var t := Recv(cfg, st, Packet(!st.reliable, FileData(off, data)), env);
            && Validating(t, off + |data|, d) && t.fsize == st.fsize && t.disk.temp == WriteAt(st.disk.temp, off, data)
            && t.cap == st.cap && WellFormed(t.cap, t.chunks) && t.inactTimer == cfg.inactTicks
            && t.com.isComplete == st.com.isComplete && t.flags.tempCreated == st.flags.tempCreated
            && t.data.eofCrc == st.data.eofCrc && t.disk.retained == st.disk.retained && t.reliable == st.reliable
  {
    hide Add, WriteAt, Holds, Separated, ProcessFd;
    DataMoves(st, off, data, env);
    WriteInside(st.disk.temp, off, data);
    AddKeepsInvariant(st.cap, st.chunks, Chunk(off, |data|));
  }

  // Any file data while the file is read, in any number of wakeups. The bytes
  // digested are those before the old position and those behind the PDU; and they
  // are the file's exactly if the PDU ends where the computation stood and changes
  // nothing in front of it.
  lemma DataWhileComputing(cfg: Config, st: Rx, k: nat, off: nat, data: seq<uint8>, env: Env, envs: seq<Env>)
    requires 0 < st.cap && WellFormed(st.cap, st.chunks) && ValidConfig(cfg) && k < st.fsize <= |st.disk.temp|
    requires Validating(st, k, st.disk.temp[..k]) && Acceptable(FileData(off, data))
    requires env.seekOk && |data| <= env.written && off + |data| <= st.fsize
    requires |envs| == CeilDiv(st.fsize - (off + |data|), cfg.crcRate) + 1 <= cfg.inactTicks
    requires forall i :: 0 <= i < |envs| ==> st.fsize <= envs[i].okReads
    ensures var dup := Recv(cfg, st, Packet(!st.reliable, FileData(off, data)), env);
            var end, was, file := off + |data|, st.disk.temp, WriteAt(st.disk.temp, off, data);
            && 0 < dup.cap && Separated(dup.chunks) && |file| == |was|
            && var t := Ticks(cfg, dup, envs).0;
               var stream := if end < st.fsize then was[..k] + file[end..st.fsize] else Words(was[..k]);
               && t.data.sub == FileStore && t.Ok() && t.disk.temp == file && t.crc.result == Checksum(stream)
               && (stream == file[..st.fsize] <==> end == k && file[..k] == was[..k])
  {
    hide Recv, Ticks, WriteAt, Computing, Checksum, CeilDiv, Separated;
    var was, file, end := st.disk.temp, WriteAt(st.disk.temp, off, data), off + |data|;
    var dup := Recv(cfg, st, Packet(!st.reliable, FileData(off, data)), env);
    DataMovesOn(cfg, st, k, was[..k], off, data, env);
    ListSeparated(dup);
    WriteInside(was, off, data);
    ChecksumInWakeups(cfg, dup, end, was[..k], envs);
    StreamIsFileIff(was, file, k, end, st.fsize);
    if end < st.fsize {
      var stream := was[..k] + file[end..st.fsize];
      PaddedWords(stream);
      PaddedChecksum(stream);
    }
  }

  lemma ListSeparated(st: Rx)
    requires WellFormed(st.cap, st.chunks)
    ensures Separated(st.chunks)
  {
  }

  lemma StreamIsFileIff(was: seq<uint8>, file: seq<uint8>, k: nat, end: nat, fsize: nat)
    requires |file| == |was| && k < fsize <= |was| && end <= fsize
    ensures var stream := if end < fsize then was[..k] + file[end..fsize] else Words(was[..k]);
            stream == file[..fsize] <==> end == k && file[..k] == was[..k]
  {
    if end < fsize {
      var stream := was[..k] + file[end..fsize];
      assert |stream| == fsize <==> end == k;
      if end == k {
        assert file[..fsize] == file[..k] + file[k..fsize];
        assert stream[..k] == was[..k] && file[..fsize][..k] == file[..k];
      }
    }
  }

  // So a PDU that overwrites bytes digested before and ends where the computation
  // stands goes unnoticed: the checksum is that of the file as it was.
  lemma OverwriteGoesUnnoticed(cfg: Config, st: Rx, k: nat, off: nat, data: seq<uint8>, env: Env, envs: seq<Env>)
    requires 0 < st.cap && WellFormed(st.cap, st.chunks) && ValidConfig(cfg) && k < st.fsize <= |st.disk.temp|
    requires Validating(st, k, st.disk.temp[..k]) && Acceptable(FileData(off, data)) && off + |data| == k
    requires env.seekOk && |data| <= env.written
    requires |envs| == CeilDiv(st.fsize - k, cfg.crcRate) + 1 <= cfg.inactTicks
    requires forall i :: 0 <= i < |envs| ==> st.fsize <= envs[i].okReads
    ensures var dup := Recv(cfg, st, Packet(!st.reliable, FileData(off, data)), env);
            && 0 < dup.cap && Separated(dup.chunks)
            && var t := Ticks(cfg, dup, envs).0;
               && t.data.sub == FileStore && t.Ok()
               && t.disk.temp == WriteAt(st.disk.temp, off, data) && t.crc.result == Checksum(st.disk.temp[..st.fsize])
  {
    hide Recv, Ticks, WriteAt, Validating, Checksum, CeilDiv, Separated, WellFormed, Words;
    var was, file := st.disk.temp, WriteAt(st.disk.temp, off, data);
    DataWhileComputing(cfg, st, k, off, data, env, envs);
    WriteInside(was, off, data);
    SameTail(was, file, k, st.fsize);
  }

  lemma SameTail(was: seq<uint8>, file: seq<uint8>, k: nat, fsize: nat)
    requires |file| == |was| && k <= fsize <= |was| && file[k..] == was[k..]
    ensures was[..k] + file[k..fsize] == was[..fsize]
  {
    assert file[k..fsize] == file[k..][..fsize - k];
    assert was[k..fsize] == was[k..][..fsize - k];
  }

  // What FILESTORE does with a complete file: it goes by the result alone.
  lemma ResultDecides(cfg: Config, st: Rx, env: Env)
    requires 0 < st.cap && Separated(st.chunks) && 0 < cfg.crcBlock
    requires st.Active() && st.data.sub == FileStore && st.Ok() && st.com.isComplete && st.flags.tempCreated
    requires env.moveOk && (st.com.inactFired || 0 < st.inactTimer)
    ensures var t := Tick(cfg, st, env).rx;
            if st.crc.result == st.data.eofCrc then
              t.disk.retained == Some(st.disk.temp) && t.data.finFs == FS_RETAINED && t.Ok()
            else
              t.disk.retained == st.disk.retained && t.data.finFs == FS_DISCARDED &&
                t.status == ST_FILE_CHECKSUM_FAILURE
  {
    hide CheckState, Maintain, InactivityTick, AckTimerTick, Separated;
    var b := AckTimerTick(InactivityTick(st));
    TimersQuiet(st);
    ResultChecked(cfg, b, env);
    MaintainQuiet(cfg, TickState(cfg, st, env), env.bufOk);
  }

  lemma TimersQuiet(st: Rx)
    requires st.com.inactFired || 0 < st.inactTimer
    ensures Timed(st, AckTimerTick(InactivityTick(st))) && AckTimerTick(InactivityTick(st)).status == st.status
  {
  }

  lemma ResultChecked(cfg: Config, st: Rx, env: Env)
    requires Separated(st.chunks) && 0 < cfg.crcBlock
    requires st.data.sub == FileStore && st.Ok() && st.com.isComplete && st.flags.tempCreated && env.moveOk
    ensures var t := CheckState(cfg, st, env);
            if st.crc.result == st.data.eofCrc then
              t.disk.retained == Some(st.disk.temp) && t.data.finFs == FS_RETAINED && t.Ok()
            else
              t.disk.retained == st.disk.retained && t.data.finFs == FS_DISCARDED &&
                t.status == ST_FILE_CHECKSUM_FAILURE
  {
    hide Separated;
  }

  // A file whose checksum is not that of the EOF is moved to its final name and
  // reported RETAINED.
  lemma UncheckedFileRetained(cfg: Config, st: Rx, env: Env, envs: seq<Env>)
    requires ValidConfig(cfg) && cfg.crcRate == 4 && 3 <= cfg.inactTicks
    requires 0 < st.cap && WellFormed(st.cap, st.chunks) && st.disk.temp == [0, 0, 0, 1, 0, 0, 0, 2] && st.fsize == 8
    requires Validating(st, 4, [0, 0, 0, 1]) && st.com.isComplete && st.flags.tempCreated
    requires st.data.eofCrc == Checksum(st.disk.temp)
    requires env.seekOk && 4 <= env.written
    requires |envs| == 3 && (forall i :: 0 <= i < 3 ==> 8 <= envs[i].okReads) && envs[2].moveOk
    ensures var dup := Recv(cfg, st, Packet(!st.reliable, FileData(0, [0, 0, 0, 9])), env);
            && 0 < dup.cap && Separated(dup.chunks)
            && var t := Ticks(cfg, dup, envs).0;
               && t.data.finFs == FS_RETAINED && t.disk.retained == Some([0, 0, 0, 9, 0, 0, 0, 2])
               && Checksum([0, 0, 0, 9, 0, 0, 0, 2]) == 11 && st.data.eofCrc == 3
  {
    hide Recv, Tick, WriteAt, Computing, Checksum, Separated, Ticks, WellFormed;
    var data: seq<uint8> := [0, 0, 0, 9];
    assert st.disk.temp[..4] == [0, 0, 0, 1] && st.disk.temp[..8] == st.disk.temp;
    DivIs(7, 4, 1, 3);
    var dup := Recv(cfg, st, Packet(!st.reliable, FileData(0, data)), env);
    DataMovesOn(cfg, st, 4, [0, 0, 0, 1], 0, data, env);
    ListSeparated(dup);
    OverwriteGoesUnnoticed(cfg, st, 4, 0, data, env, envs[..2]);
    ChecksumInWakeups(cfg, dup, 4, [0, 0, 0, 1], envs[..2]);
    var store := Ticks(cfg, dup, envs[..2]).0;
    TicksKeepList(cfg, dup, envs[..2]);
    ResultDecides(cfg, store, envs[2]);
    LastTick(cfg, dup, envs);
    SmallWrite(data);
    SmallChecksum(1, 2);
    SmallChecksum(9, 2);
  }

  lemma {:induction false} LastTick(cfg: Config, st: Rx, envs: seq<Env>)
    requires 0 < st.cap && Separated(st.chunks) && 0 < cfg.crcBlock && envs != []
    ensures var front := Ticks(cfg, st, envs[..|envs| - 1]).0;
            && 0 < front.cap && Separated(front.chunks)
            && Ticks(cfg, st, envs).0 == Tick(cfg, front, envs[|envs| - 1]).rx
    decreases |envs|
  {
    hide Tick, Separated;
    TickKeepsList(cfg, st, envs[0]);
    TicksKeepList(cfg, st, envs[..|envs| - 1]);
    if |envs| == 1 {
      assert envs[..0] == [] && envs[1..] == [];
    } else {
      assert envs[..|envs| - 1][1..] == envs[1..][..|envs[1..]| - 1];
      LastTick(cfg, Tick(cfg, st, envs[0]).rx, envs[1..]);
    }
  }

  lemma SmallWrite(data: seq<uint8>)
    requires data == [0, 0, 0, 9]
    ensures WriteAt([0, 0, 0, 1, 0, 0, 0, 2], 0, data) == [0, 0, 0, 9, 0, 0, 0, 2]
  {
  }

  // A repetition of the last data PDU ends the computation before it began, and
  // the complete and correct file is thrown away for a checksum failure.
  lemma LateDuplicateDiscardsGoodFile(cfg: Config, st: Rx, env: Env, envs: seq<Env>)
    requires ValidConfig(cfg) && 2 <= cfg.inactTicks
    requires 0 < st.cap && WellFormed(st.cap, st.chunks) && st.disk.temp == [0, 0, 0, 1, 0, 0, 0, 2] && st.fsize == 8
    requires Validating(st, 0, []) && st.com.isComplete && st.flags.tempCreated
    requires st.data.eofCrc == Checksum(st.disk.temp) && env.seekOk && 4 <= env.written
    requires |envs| == 2 && 8 <= envs[0].okReads && 8 <= envs[1].okReads && envs[1].moveOk
    ensures var dup := Recv(cfg, st, Packet(!st.reliable, FileData(4, [0, 0, 0, 2])), env);
            && dup.disk.temp == st.disk.temp && dup.Ok() && 0 < dup.cap && Separated(dup.chunks)
            && Ticks(cfg, dup, envs).0.status == ST_FILE_CHECKSUM_FAILURE
            && Ticks(cfg, dup, envs).0.data.finFs == FS_DISCARDED
  {
    hide Recv, Tick, WriteAt, Computing, Checksum, Separated, Ticks, WellFormed;
    var data: seq<uint8> := [0, 0, 0, 2];
    assert st.disk.temp[4..8] == data && st.disk.temp[..0] == [];
    RewriteSame(st.disk.temp, 4, data);
    CeilDivLow(0, cfg.crcRate);
    var dup := Recv(cfg, st, Packet(!st.reliable, FileData(4, data)), env);
    DataMovesOn(cfg, st, 0, [], 4, data, env);
    ComputingHere(dup, 8, []);
    ListSeparated(dup);
    DataWhileComputing(cfg, st, 0, 4, data, env, envs[..1]);
    ChecksumInWakeups(cfg, dup, 8, [], envs[..1]);
    TicksKeepList(cfg, dup, envs[..1]);
    ResultDecides(cfg, Ticks(cfg, dup, envs[..1]).0, envs[1]);
    LastTick(cfg, dup, envs);
    SmallChecksum(1, 2);
    EmptyChecksum();
  }

  lemma EmptyChecksum()
    ensures Words([]) == [] && Checksum([]) == 0
  {
    EmptyWord();
  }

  // ---------- what was digested, over any run ----------

  // The loop digests the bytes between the positions, on failing reads too.
  lemma {:induction false} CrcLoopDigests(cfg: Config, fsize: nat, temp: seq<uint8>, run: CrcRun, count: nat,
                                          okReads: nat)
    requires 0 < cfg.crcBlock
    ensures var r := CrcLoop(cfg, fsize, temp, run, count, okReads);
            && run.pos <= r.pos && (run.pos < r.pos ==> r.pos <= |temp|)
            && (run.cachedPos <= fsize ==> run.cachedPos <= r.cachedPos <= fsize)
            && r.pos - r.cachedPos == run.pos - run.cachedPos
            && r.crc == Digest(run.crc, if run.pos < r.pos then temp[run.pos..r.pos] else [])
    decreases fsize - run.cachedPos
  {
    hide Digest;
    EmptyDigest(run.crc);
    if count < cfg.crcRate && run.cachedPos < fsize {
      var n := Min(cfg.crcBlock, fsize - run.cachedPos);
      if okReads != 0 && run.pos + n <= |temp| {
        var next := CrcRun(run.cachedPos + n, run.pos + n, Digest(run.crc, temp[run.pos..run.pos + n]), true);
        CrcLoopDigests(cfg, fsize, temp, next, count + n, okReads - 1);
        var r := CrcLoop(cfg, fsize, temp, next, count + n, okReads - 1);
        if next.pos < r.pos {
          DigestConcat(run.crc, temp[run.pos..next.pos], temp[next.pos..r.pos]);
          SliceConcat(temp, run.pos, next.pos, r.pos);
        } else {
          EmptyDigest(next.crc);
        }
      }
    }
  }

  function LoopOf(cfg: Config, st: Rx, env: Env): CrcRun
    requires 0 < cfg.crcBlock
  {
    CrcLoop(cfg, st.fsize, st.disk.temp, CrcRun(st.data.cachedPos, st.disk.pos, st.crc, true), 0,
            if st.disk.fdOpen then env.okReads else 0)
  }

  // The stream `d` after one state check.
  function HeardCheck(cfg: Config, st: Rx, d: seq<uint8>, env: Env): seq<uint8>
    requires 0 < cfg.crcBlock
  {
    if st.data.sub != Validate || !st.Ok() || st.data.cachedPos == st.fsize then d
    else
      var r := LoopOf(cfg, st, env);
      var e := d + (if st.disk.pos < r.pos <= |st.disk.temp| then st.disk.temp[st.disk.pos..r.pos] else []);
      if r.success && r.cachedPos == st.fsize then Padded(e) else e
  }

  lemma ChunkHears(cfg: Config, st: Rx, d: seq<uint8>, env: Env)
    requires 0 < cfg.crcBlock && Holds(st.crc, 0, d) && st.data.sub == Validate && st.Ok()
    requires st.data.cachedPos != st.fsize
    ensures Holds(CalcCrcChunk(cfg, st, env).crc, 0, HeardCheck(cfg, st, d, env))
  {
    hide Holds, CrcLoop, Digest, Finalize;
    var r := LoopOf(cfg, st, env);
    CrcLoopDigests(cfg, st.fsize, st.disk.temp, CrcRun(st.data.cachedPos, st.disk.pos, st.crc, true), 0,
                   if st.disk.fdOpen then env.okReads else 0);
    var bytes := if st.disk.pos < r.pos then st.disk.temp[st.disk.pos..r.pos] else [];
    DigestExtends(st.crc, 0, d, bytes);
    FinalizePads(r.crc, d + bytes);
  }

  lemma CheckHears(cfg: Config, st: Rx, d: seq<uint8>, env: Env)
    requires Separated(st.chunks) && 0 < cfg.crcBlock && Holds(st.crc, 0, d) && 2 <= st.data.sub.Rank()
    ensures Holds(CheckState(cfg, st, env).crc, 0, HeardCheck(cfg, st, d, env))
  {
    hide Holds, CalcCrcChunk, Separated, LoopOf;
    if st.data.sub == Validate && st.Ok() && st.data.cachedPos != st.fsize {
      ChunkHears(cfg, st, d, env);
    }
  }

  function Heard(cfg: Config, st: Rx, d: seq<uint8>, e: Event): seq<uint8>
    requires 0 < cfg.crcBlock
  {
    if e.Wakeup? && st.Active() then HeardCheck(cfg, AckTimerTick(InactivityTick(st)), d, e.env) else d
  }

  lemma StepHears(cfg: Config, st: Rx, d: seq<uint8>, e: Event)
    requires 0 < st.cap && Separated(st.chunks) && 0 < cfg.crcBlock && ValidEvent(e)
    requires Holds(st.crc, 0, d) && 2 <= st.data.sub.Rank()
    ensures Holds(Step(cfg, st, e).crc, 0, Heard(cfg, st, d, e))
  {
    hide Recv, CheckState, Maintain, InactivityTick, AckTimerTick, Holds, Separated, Add, HeardCheck;
    match e {
      case Arrive(pkt, env) => RecvHandles(cfg, st, pkt, env);
      case Wakeup(env) =>
        TimersTimed(st);
        if st.Active() {
          CheckHears(cfg, AckTimerTick(InactivityTick(st)), d, env);
        }
        MaintainQuiet(cfg, TickState(cfg, st, env), env.bufOk);
      case _ =>
    }
  }

  // Everything digested in a run, `d` before it; zeros stand where the register was
  // finalized and went on.
  ghost function Stream(cfg: Config, st: Rx, d: seq<uint8>, es: seq<Event>): seq<uint8>
    requires 0 < st.cap && WellFormed(st.cap, st.chunks) && 0 < cfg.crcBlock
    requires forall k :: 0 <= k < |es| ==> ValidEvent(es[k])
    decreases |es|
  {
    if es == [] then d
    else
      var n := |es| - 1;
      Heard(cfg, Run(cfg, st, es[..n]), Stream(cfg, st, d, es[..n]), es[n])
  }

  lemma {:induction false} RunHears(cfg: Config, st: Rx, d: seq<uint8>, es: seq<Event>)
    requires 0 < st.cap && WellFormed(st.cap, st.chunks) && 0 < cfg.crcBlock
    requires forall k :: 0 <= k < |es| ==> ValidEvent(es[k])
    requires Holds(st.crc, 0, d) && 2 <= st.data.sub.Rank()
    ensures Holds(Run(cfg, st, es).crc, 0, Stream(cfg, st, d, es)) && 2 <= Run(cfg, st, es).data.sub.Rank()
    decreases |es|
  {
    if es != [] {
      hide Step, Holds, Heard, Separated;
      var n := |es| - 1;
      RunHears(cfg, st, d, es[..n]);
      var last := Run(cfg, st, es[..n]);
      ListSeparated(last);
      StepHears(cfg, last, Stream(cfg, st, d, es[..n]), es[n]);
      SubStateMonotone(cfg, last, es[n]);
    }
  }

  // From VALIDATE on, in any run, with any PDUs and any outcome of the reads, over
  // any number of wakeups: a complete file is retained if and only if the checksum of
  // the complete words of the digested stream is the one in the EOF.
  lemma StreamDecides(cfg: Config, st: Rx, d: seq<uint8>, es: seq<Event>, env: Env)
    requires 0 < st.cap && WellFormed(st.cap, st.chunks) && 0 < cfg.crcBlock
    requires forall k :: 0 <= k < |es| ==> ValidEvent(es[k])
    requires Holds(st.crc, 0, d) && 2 <= st.data.sub.Rank()
    ensures var f := Run(cfg, st, es);
            && f.crc.result == Checksum(Words(Stream(cfg, st, d, es)))
            && (f.Active() && f.data.sub == FileStore && f.Ok() && f.com.isComplete && f.flags.tempCreated &&
                env.moveOk && (f.com.inactFired || 0 < f.inactTimer) ==>
                  var t := Tick(cfg, f, env).rx;
                  if Checksum(Words(Stream(cfg, st, d, es))) == f.data.eofCrc then
                    t.disk.retained == Some(f.disk.temp) && t.data.finFs == FS_RETAINED
                  else t.disk.retained == f.disk.retained && t.data.finFs == FS_DISCARDED)
  {
    hide Run, Stream, Tick, Holds, Checksum, Separated;
    RunHears(cfg, st, d, es);
    var f := Run(cfg, st, es);
    UnfinalizedResult(f.crc, Stream(cfg, st, d, es));
    ListSeparated(f);
    if f.Active() && f.data.sub == FileStore && f.Ok() && f.com.isComplete && f.flags.tempCreated &&
       env.moveOk && (f.com.inactFired || 0 < f.inactTimer) {
      ResultDecides(cfg, f, env);
    }
  }

  lemma SmallChecksum(x: uint8, y: uint8)
    ensures Checksum([0, 0, 0, x, 0, 0, 0, y]) == x + y
  {
    var d: seq<uint8> := [0, 0, 0, x, 0, 0, 0, y];
    var a: seq<uint8>, b: seq<uint8> := [0, 0, 0, x], [0, 0, 0, y];
    assert d[..4] == a && d[4..] == b;
    assert b[..4] == b && b[4..] == [];
    WordValue(0, 0, 0, x);
    WordValue(0, 0, 0, y);
    EmptyWord();
    assert Checksum(b) == Add32(Word(b), Checksum([]));
    assert Add32(y, 0) == y && Add32(x, y) == x + y;
    assert Checksum(d) == Add32(Word(a), Checksum(b));
  }

  lemma WordValue(p: uint8, q: uint8, r: uint8, s: uint8)
    ensures Word([p, q, r, s]) == 0x100_0000 * p + 0x1_0000 * q + 0x100 * r + s
  {
    hide Value;
    NoBytes();
    ValueAppend([], p);
    ValueAppend([p], q);
    ValueAppend([p, q], r);
    ValueAppend([p, q, r], s);
    assert [] + [p] == [p] && [p] + [q] == [p, q] && [p, q] + [r] == [p, q, r] && [p, q, r] + [s] == [p, q, r, s];
  }
}
