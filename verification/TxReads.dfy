/** What a sender reads from its source file and puts into data PDUs. */
module TxReads {
  import opened Cfdp
  import opened Crc
  import opened ChunkSpec
  import opened Link
  import opened TxSpec
  import NR = NakRepair

  // The size is that of the file, and no request ends behind `lim`.
  ghost predicate Ranged(st: Tx, src: seq<uint8>, lim: nat) {
    && 0 < st.cap && WellFormed(st.cap, st.chunks)
    && (forall k :: 0 <= k < |st.chunks| ==> st.chunks[k].End() <= lim)
    && st.fsize == |src| <= lim <= U32_MAX
  }

  // The file stands where the transaction believes it stands.
  predicate Positioned(st: Tx) { st.fdOpen ==> st.pos == st.data.cachedPos }

  // It stands there, or at its end after a read for an entry that reaches behind it:
  // from there nothing is read, so nothing wrong is sent.
  predicate Placed(st: Tx, src: seq<uint8>) {
    st.fdOpen ==> st.pos == st.data.cachedPos || (|src| <= st.pos && st.data.cachedPos <= st.pos)
  }

  // A read delivers nothing or all that was asked for.
  predicate WholeReads(cfg: Config, env: Env) { env.read == 0 || cfg.chunkSize <= env.read }

  // Every data PDU has room for data.
  predicate Roomy(cfg: Config, env: Env) { 0 < cfg.chunkSize && 0 < env.room }

  // What sending file data may change.
  ghost predicate Moved(st: Tx, a: Tx) {
    a == st.(pos := a.pos, crc := a.crc, data := st.data.(cachedPos := a.data.cachedPos))
  }

  lemma SendMoves(cfg: Config, st: Tx, src: seq<uint8>, foffs: nat, want: nat, calcCrc: bool, env: Env)
    ensures var r := SendFileData(cfg, st, src, foffs, want, calcCrc, env);
            && Moved(st, r.tx)
            && (calcCrc || r.tx.crc == st.crc)
            && (r.result.Sent? ==> r.result.n == Min(Min(env.room, want), cfg.chunkSize))
            && (r.result == NoBuffer <==> !env.bufOk)
            && (r.result == NoBuffer ==> r.tx == st)
            && (Positioned(st) && ((WholeReads(cfg, env) && foffs + want <= |src|) || r.result != Failed) ==>
               Positioned(r.tx))
            && (Placed(st, src) && (WholeReads(cfg, env) || r.result != Failed) ==> Placed(r.tx, src))
            && (NR.NotBehind(st) ==> NR.NotBehind(r.tx))
            && (forall p :: p in r.sent ==> p.pdu.FileData?)
  {
    hide ReadAndSend;
    if env.bufOk && (st.data.cachedPos == foffs || (st.fdOpen && env.seekOk)) {
      var a := if st.data.cachedPos != foffs then st.(pos := foffs, data := st.data.(cachedPos := foffs)) else st;
      ReadMoves(a, src, foffs, Min(Min(env.room, want), cfg.chunkSize), calcCrc, env);
    }
  }

  lemma ReadMoves(st: Tx, src: seq<uint8>, foffs: nat, n: nat, calcCrc: bool, env: Env)
    requires st.data.cachedPos == foffs
    ensures var r := ReadAndSend(st, src, foffs, n, calcCrc, env);
            && Moved(st, r.tx)
            && (calcCrc || r.tx.crc == st.crc)
            && r.result != NoBuffer && (r.result.Sent? ==> r.result.n == n)
            && (Positioned(st) && foffs + n <= |src| && (env.read == 0 || n <= env.read) ==> Positioned(r.tx))
            && (Positioned(st) && r.result != Failed ==> Positioned(r.tx))
            && (Placed(st, src) && (env.read == 0 || n <= env.read || r.result != Failed) ==> Placed(r.tx, src))
            && (NR.NotBehind(st) ==> NR.NotBehind(r.tx))
            && (forall p :: p in r.sent ==> p.pdu.FileData?)
  {
    hide Digest;
  }

  // A PDU that was sent lies inside the file, whatever was asked for, and carries the
  // bytes of the source its offset names, if the file stood where it should.
  lemma SendGenuine(cfg: Config, st: Tx, src: seq<uint8>, foffs: nat, want: nat, calcCrc: bool, env: Env, c: Course)
    requires Roomy(cfg, env) && 0 < want && NR.NotBehind(st) && (c.Sound? ==> Placed(st, src))
    ensures forall p :: p in SendFileData(cfg, st, src, foffs, want, calcCrc, env).sent ==> Genuine(p.pdu, src, c)
  {
    hide ReadAndSend, Genuine;
    if env.bufOk && (st.data.cachedPos == foffs || (st.fdOpen && env.seekOk)) {
      var a := if st.data.cachedPos != foffs then st.(pos := foffs, data := st.data.(cachedPos := foffs)) else st;
      ReadGenuine(a, src, foffs, Min(Min(env.room, want), cfg.chunkSize), calcCrc, env, c);
    }
  }

  lemma ReadGenuine(st: Tx, src: seq<uint8>, foffs: nat, n: nat, calcCrc: bool, env: Env, c: Course)
    requires st.data.cachedPos == foffs && 0 < n && NR.NotBehind(st) && (c.Sound? ==> Placed(st, src))
    ensures forall p :: p in ReadAndSend(st, src, foffs, n, calcCrc, env).sent ==> Genuine(p.pdu, src, c)
  {
    hide Digest;
  }

  // With the file where it should stand, what is digested is what was sent before
  // and the bytes sent now.
  lemma SendDigests(cfg: Config, st: Tx, src: seq<uint8>, env: Env)
    requires Placed(st, src) && st.foffs <= st.fsize == |src| && st.crc == Digest(START, src[..st.foffs])
    ensures var r := SendFileData(cfg, st, src, st.foffs, st.fsize - st.foffs, true, env);
            if r.result.Sent? then
              st.foffs + r.result.n <= |src| && r.tx.crc == Digest(START, src[..st.foffs + r.result.n])
            else r.tx.crc == st.crc
  {
    hide ReadAndSend, Digest;
    var a :=
      if st.data.cachedPos != st.foffs then st.(pos := st.foffs, data := st.data.(cachedPos := st.foffs)) else st;
    if env.bufOk && (st.data.cachedPos == st.foffs || (st.fdOpen && env.seekOk)) {
      ReadDigests(a, src, Min(Min(env.room, st.fsize - st.foffs), cfg.chunkSize), env);
    }
  }

  lemma ReadDigests(st: Tx, src: seq<uint8>, n: nat, env: Env)
    requires st.foffs + n <= |src| && st.data.cachedPos == st.foffs && Placed(st, src)
    requires st.crc == Digest(START, src[..st.foffs])
    ensures var r := ReadAndSend(st, src, st.foffs, n, true, env);
            if r.result.Sent? then r.result.n == n && r.tx.crc == Digest(START, src[..st.foffs + n])
            else r.tx.crc == st.crc
  {
    hide Digest;
    DigestConcat(START, src[..st.foffs], src[st.foffs..st.foffs + n]);
    assert src[..st.foffs] + src[st.foffs..st.foffs + n] == src[..st.foffs + n];
    if n == 0 {
      assert src[st.foffs..st.foffs] == [];
    }
  }

  lemma FirstInFile(st: Tx, src: seq<uint8>, lim: nat)
    requires Ranged(st, src, lim) && st.chunks != []
    ensures 0 < st.chunks[0].size && st.chunks[0].End() <= lim
  {
    NR.GapPositive(st.chunks, 0);
  }

  lemma TrimKeeps(cap: nat, s: seq<Chunk>, n: nat, lim: nat)
    requires WellFormed(cap, s) && s != [] && lim <= U32_MAX
    requires forall k :: 0 <= k < |s| ==> s[k].End() <= lim
    ensures WellFormed(cap, RemoveFromFirst(s, n))
    ensures forall k :: 0 <= k < |RemoveFromFirst(s, n)| ==> RemoveFromFirst(s, n)[k].End() <= lim
  {
    RemoveFromFirstFacts(s, n);
    NR.TrimmedWithin(s, n, lim);
    hide Separated;
  }

  // The bytes of a data PDU are read at the position of the file, which is where
  // the PDU says only if both positions agreed before. A read that delivers some
  // bytes but not all, for whatever reason, is what parts them.
  lemma PositionsPartIff(cfg: Config, st: Tx, src: seq<uint8>, foffs: nat, want: nat, calcCrc: bool, env: Env)
    requires st.fdOpen
    ensures var r := SendFileData(cfg, st, src, foffs, want, calcCrc, env);
            var at := if st.data.cachedPos != foffs then foffs else st.pos;
            var delivered := if |src| <= at then 0 else Min(env.read, |src| - at);
            && (r.result.Sent? && 0 < r.result.n ==>
                  at + r.result.n <= |src|
                  && r.sent == [Outgoing(st, FileData(foffs, src[at..at + r.result.n]))])
            && (st.pos == st.data.cachedPos ==>
                  (r.tx.pos == r.tx.data.cachedPos <==>
                     !(env.bufOk && (env.seekOk || st.data.cachedPos == foffs)
                       && 0 < delivered < Min(Min(env.room, want), cfg.chunkSize))))
  {
    hide Digest;
  }

  // After such a read the next request is answered with the wrong bytes.
  lemma ShortReadSendsWrongBytes(cfg: Config, st: Tx)
    requires cfg.chunkSize == 4 && st.fdOpen && st.pos == st.data.cachedPos == 0
    requires st.flags.fdNakPending && st.chunks == [Chunk(0, 4)] && st.phase == S2
    ensures var src := [1, 2, 3, 4, 5, 6, 7, 8];
            var (t, nothing) := TickNak(cfg, st, src, Env(true, 100, true, 2, false, false, true));
            && nothing == []
            && TickNak(cfg, t, src, Env(true, 100, true, 4, false, false, true)).1
                 == [Packet(false, FileData(0, [3, 4, 5, 6]))]
  {
    var src: seq<uint8> := [1, 2, 3, 4, 5, 6, 7, 8];
    assert src[2..6] == [3, 4, 5, 6];
  }
}
