/**
 What chunk lists with entries behind the end of the file do to a transfer: requests
 that the sender refuses, and entries that it can never serve.
 */
module Refusals {
  import opened Cfdp
  import opened Crc
  import opened ChunkSpec
  import opened Gaps
  import NR = NakRepair
  import Rx = RxSpec
  import RR = RxRuns
  import RT = RxRetries
  import Tx = TxSpec

  // ---------- refused requests ----------

  // How many gaps a NAK is built from; the one in front of the first entry is
  // reported even where none may be.
  function Asked(cap: nat, s: seq<Chunk>): (n: nat)
    requires 0 < cap
    ensures 0 < n
  {
    if |s| < cap then cap else if cap == 1 then 1 else cap - 1
  }

  lemma AskedGaps(cap: nat, s: seq<Chunk>, fsize: nat)
    requires 0 < cap && WellFormed(cap, s) && Rx.NakGaps(cap, s, fsize) != []
    ensures Rx.NakGaps(cap, s, fsize) == Reported(s, Asked(cap, s), fsize, 0)
  {
    if cap == 1 && |s| == 1 {
      hide Separated;
      assert LoopGaps(s, 0, 0, fsize, 0) == [];
    }
  }

  // The sender of a file of the same size takes any request but one: that for the last
  // gap of the file, if that reaches beyond its end up to an entry behind it.
  lemma RefusedIff(cfg: Config, cap: nat, s: seq<Chunk>, fsize: nat, k: nat)
    requires 0 < cap && WellFormed(cap, s) && Rx.NakGaps(cap, s, fsize) != []
    requires k < |Rx.NakSegs(cfg, cap, s, fsize)|
    ensures !Tx.DataRequest(fsize, Rx.NakSegs(cfg, cap, s, fsize)[k])
       <==> k == |AllGaps(s, 0, fsize)| - 1 && Overhangs(s, Asked(cap, s), fsize, 0)
  {
    hide Separated, Reported, AllGaps, Overhangs, IsGap, Rx.NakGaps, Tx.DataRequest, Asked;
    AskedGaps(cap, s, fsize);
    var gs := Take(Rx.NakGaps(cap, s, fsize), cfg.maxSegments);
    assert gs[k] == Reported(s, Asked(cap, s), fsize, 0)[k];
    NR.LastOverhangs(s, fsize, Asked(cap, s), k);
    NR.ReportedPositive(s, Asked(cap, s), fsize);
    RequestFor(gs[k], fsize);
  }

  lemma RequestFor(g: Chunk, fsize: nat)
    requires 0 < g.size
    ensures Tx.DataRequest(fsize, Seg(g.offset, g.End())) <==> g.End() <= fsize
  {
  }

  // Some request of a NAK is refused if and only if the overhanging gap is among those
  // it has room for.
  lemma SomeRefusedIff(cfg: Config, cap: nat, s: seq<Chunk>, fsize: nat)
    requires 0 < cap && WellFormed(cap, s) && Rx.NakGaps(cap, s, fsize) != []
    ensures (exists k :: 0 <= k < |Rx.NakSegs(cfg, cap, s, fsize)| &&
                         !Tx.DataRequest(fsize, Rx.NakSegs(cfg, cap, s, fsize)[k]))
       <==> Overhangs(s, Min(Asked(cap, s), cfg.maxSegments), fsize, 0)
  {
    hide Separated, Reported, IsGap, Rx.NakGaps, Covers, AllGaps;
    var all, segs := AllGaps(s, 0, fsize), Rx.NakSegs(cfg, cap, s, fsize);
    AskedGaps(cap, s, fsize);
    NR.ClipsTo(s, fsize, Asked(cap, s), 0);
    ReportedClipsToGaps(s, Asked(cap, s), fsize, 0);
    assert |Reported(s, Asked(cap, s), fsize, 0)| == Min(Asked(cap, s), |all|);
    assert |segs| == Min(|Reported(s, Asked(cap, s), fsize, 0)|, cfg.maxSegments);
    forall k | 0 <= k < |segs|
      ensures !Tx.DataRequest(fsize, segs[k]) <==> k == |all| - 1 && Overhangs(s, Asked(cap, s), fsize, 0)
    {
      RefusedIff(cfg, cap, s, fsize, k);
    }
    if Overhangs(s, Asked(cap, s), fsize, 0) && |all| <= cfg.maxSegments {
      assert !Tx.DataRequest(fsize, segs[|all| - 1]);
    }
  }

  // A list left by a longer file: all that is asked for is refused.
  lemma RefusedExample(cfg: Config, cap: nat, tx: Tx.Tx)
    requires 1 < cap && 0 < cfg.maxSegments && 0 < tx.cap && tx.fsize == 50
    ensures var s := [Chunk(100, 100)];
            && WellFormed(cap, s) && Rx.NakSegs(cfg, cap, s, 50) == [Seg(0, 100)]
            && Tx.RecvNak(tx, Rx.NakSegs(cfg, cap, s, 50)) == tx
  {
    var s := [Chunk(100, 100)];
    var gaps := Reported(s, cap, 50, 0);
    assert gaps == [Chunk(0, 100)] + LoopGaps(s, 0, cap - 1, 50, 0);
    assert gaps == [Chunk(0, 100)];
    assert gaps[1..] == [];
    assert Take(gaps, cfg.maxSegments) == gaps;
    assert Rx.ToSegs(gaps)[0] == Seg(0, 100);
    OneRefused(tx, Seg(0, 100));
  }

  lemma OneRefused(tx: Tx.Tx, sr: Seg)
    requires 0 < tx.cap && sr != Seg(0, 0) && !Tx.DataRequest(tx.fsize, sr)
    ensures Tx.RecvNak(tx, [sr]) == tx
  {
    assert [sr][1..] == [];
    assert Tx.RecvNak(tx, [sr]) == Tx.RecvNak(Tx.RecvSeg(tx, sr), []);
  }

  // ---------- no progress ----------

  // All that is missing is one gap, and it overhangs.
  ghost predicate OnlyOverhang(cap: nat, s: seq<Chunk>, fsize: nat)
    requires 0 < cap
  {
    |AllGaps(s, 0, fsize)| == 1 && Overhangs(s, Asked(cap, s), fsize, 0) && Separated(s) &&
      Rx.NakGaps(cap, s, fsize) != []
  }

  lemma NothingLoaded(cfg: Config, cap: nat, s: seq<Chunk>, tx: Tx.Tx)
    requires 0 < cap && WellFormed(cap, s) && OnlyOverhang(cap, s, tx.fsize) && 0 < tx.cap && 0 < cfg.maxSegments
    ensures Tx.RecvNak(tx, Rx.NakSegs(cfg, cap, s, tx.fsize)) == tx
  {
    hide Separated, Reported, AllGaps, Overhangs, Rx.NakGaps;
    var segs := Rx.NakSegs(cfg, cap, s, tx.fsize);
    AskedGaps(cap, s, tx.fsize);
    NR.ClipsTo(s, tx.fsize, Asked(cap, s), 0);
    NR.ReportedPositive(s, Asked(cap, s), tx.fsize);
    assert |segs| == 1;
    RefusedIff(cfg, cap, s, tx.fsize, 0);
    OneRefused(tx, segs[0]);
    assert segs == [segs[0]];
  }

  // Rounds on a perfect link: the NAK arrives, the sender serves for some wakeups, and
  // all it sends arrives.
  ghost function Rounds(cfg: Config, cap: nat, s: seq<Chunk>, tx: Tx.Tx, src: seq<uint8>, rounds: seq<seq<Tx.Env>>)
    : (seq<Chunk>, Tx.Tx)
    requires 0 < cap && WellFormed(cap, s) && 0 < tx.cap
    decreases |rounds|
  {
    if rounds == [] then (s, tx)
    else
      var (t, sent) := NR.Serve(cfg, Tx.RecvNak(tx, Rx.NakSegs(cfg, cap, s, tx.fsize)), src, rounds[0]);
      var more := AddAll(cap, s, NR.Blocks(sent));
      if WellFormed(cap, more) && 0 < t.cap then Rounds(cfg, cap, more, t, src, rounds[1..]) else (more, t)
  }

  // While only that gap is open and the sender has no other requests, no number of
  // rounds changes anything at either end.
  lemma {:induction false} NeverAnswered(cfg: Config, cap: nat, s: seq<Chunk>, tx: Tx.Tx, src: seq<uint8>,
                                         rounds: seq<seq<Tx.Env>>)
    requires 0 < cap && WellFormed(cap, s) && OnlyOverhang(cap, s, tx.fsize) && 0 < tx.cap && 0 < cfg.maxSegments
    requires tx.chunks == [] && !tx.flags.fdNakPending
    ensures Rounds(cfg, cap, s, tx, src, rounds) == (s, tx)
    decreases |rounds|
  {
    if rounds != [] {
      hide WellFormed, OnlyOverhang;
      NothingLoaded(cfg, cap, s, tx);
      NothingServed(cfg, tx, src, rounds[0]);
      NeverAnswered(cfg, cap, s, tx, src, rounds[1..]);
    }
  }

  lemma {:induction false} NothingServed(cfg: Config, tx: Tx.Tx, src: seq<uint8>, envs: seq<Tx.Env>)
    requires !tx.flags.fdNakPending
    ensures NR.Serve(cfg, tx, src, envs) == (tx, [])
    decreases |envs|
  {
    if envs != [] {
      NothingServed(cfg, tx, src, envs[1..]);
      assert Tx.TickNak(cfg, tx, src, envs[0]) == (tx, []);
      assert [] + NR.Serve(cfg, tx, src, envs[1..]).1 == [];
    }
  }

  // So the receiver asks, exactly as often as the limit allows, with NAKs that leave any
  // sender of that file as it is, and gives up.
  lemma RefusedUntilLimit(cfg: Config, st: Rx.Rx, envs: seq<Rx.Env>, tx: Tx.Tx)
    requires 0 < st.cap && WellFormed(st.cap, st.chunks) && Separated(st.chunks) && 0 < cfg.crcBlock
    requires 0 < cfg.maxSegments
    requires RT.Asking(cfg, st) && st.flags.mdRecv && OnlyOverhang(st.cap, st.chunks, st.fsize)
    requires |envs| == RT.TicksLeft(cfg, st, st.flags.sendNak) <= st.inactTimer
    requires forall i :: 0 <= i < |envs| ==> envs[i].bufOk
    requires 0 < tx.cap && tx.fsize == st.fsize
    ensures var (t, sent) := RR.Ticks(cfg, st, envs);
            && RT.Sends(sent) == RT.SendsLeft(cfg, st, st.flags.sendNak)
            && (forall p :: p in sent && p.pdu.Nak? ==> Tx.RecvNak(tx, p.pdu.segs) == tx)
            && t.status == ST_NAK_LIMIT_REACHED && t.data.sub == Rx.FileStore
  {
    hide RR.Ticks, RT.Asking, RT.TicksLeft, RT.SendsLeft, RT.Sends, Separated, WellFormed, OnlyOverhang;
    RT.NakRepeats(cfg, st, envs, 0);
    RT.SameRequests(cfg, st, envs);
    NothingLoaded(cfg, st.cap, st.chunks, tx);
  }

  // ---------- entries that are never served ----------

  // The first entry's next block reaches behind the end of the file.
  predicate Blocked(cfg: Config, st: Tx.Tx, src: seq<uint8>) {
    st.chunks != [] && 0 < st.chunks[0].size && |src| < st.chunks[0].offset + Min(st.chunks[0].size, cfg.chunkSize)
  }

  lemma BlockedStep(cfg: Config, st: Tx.Tx, src: seq<uint8>, env: Tx.Env)
    requires 0 < cfg.chunkSize <= env.room && Blocked(cfg, st, src) && NR.NotBehind(st)
    ensures var (t, sent) := Tx.TickNak(cfg, st, src, env);
            sent == [] && t.chunks == st.chunks && NR.NotBehind(t) && t.flags == st.flags
  {
    hide Digest;
  }

  // With room for whole blocks nothing is sent any more, in any number of wakeups and
  // whatever the reads do: the entry stays, and all that stand behind it.
  lemma {:induction false} BlockedStays(cfg: Config, st: Tx.Tx, src: seq<uint8>, envs: seq<Tx.Env>)
    requires 0 < cfg.chunkSize && (forall i :: 0 <= i < |envs| ==> cfg.chunkSize <= envs[i].room)
    requires Blocked(cfg, st, src) && NR.NotBehind(st)
    ensures var (t, sent) := NR.Serve(cfg, st, src, envs);
            sent == [] && t.chunks == st.chunks && t.flags == st.flags
    decreases |envs|
  {
    if envs != [] {
      hide Tx.TickNak, NR.NotBehind;
      BlockedStep(cfg, st, src, envs[0]);
      BlockedStays(cfg, Tx.TickNak(cfg, st, src, envs[0]).0, src, envs[1..]);
    }
  }

  // One wakeup in which nothing fails serves the first entry if and only if its next
  // block ends inside the file.
  lemma BlockedIff(cfg: Config, st: Tx.Tx, src: seq<uint8>, env: Tx.Env)
    requires 0 < cfg.chunkSize <= env.room && NR.Good(cfg, env) && Separated(st.chunks) && st.chunks != []
    requires st.fdOpen && st.data.cachedPos == st.pos && st.flags.fdNakPending
    ensures Tx.TickNak(cfg, st, src, env).1 == [] <==> Blocked(cfg, st, src)
  {
    hide Digest, Separated;
    assert 0 < st.chunks[0].size by { NR.GapPositive(st.chunks, 0); }
  }

  // A request for the end of the file that joins an entry left behind it: its bytes are
  // in the file, and never sent.
  lemma JoinedExample(cfg: Config, tx: Tx.Tx, src: seq<uint8>, envs: seq<Tx.Env>)
    requires cfg.chunkSize == 8 && (forall i :: 0 <= i < |envs| ==> 8 <= envs[i].room)
    requires 0 < tx.cap && tx.chunks == [Chunk(12, 8)] && tx.fsize == |src| == 12 && NR.NotBehind(tx)
    ensures var loaded := Tx.RecvNak(tx, [Seg(8, 12)]);
            loaded.chunks == [Chunk(8, 12)] && NR.Serve(cfg, loaded, src, envs).1 == []
  {
    hide Add, NR.Serve;
    var sr := Seg(8, 12);
    assert [sr][1..] == [];
    var a := Tx.RecvSeg(tx, sr);
    assert Tx.RecvNak(tx, [sr]) == Tx.RecvNak(a, []);
    JoinedList(tx.cap);
    BlockedStays(cfg, a, src, envs);
  }

  lemma JoinedList(cap: nat)
    requires 0 < cap
    ensures Add(cap, [Chunk(12, 8)], Chunk(8, 4)) == [Chunk(8, 12)]
  {
    assert [Chunk(12, 8)][0].Touches(Chunk(8, 4));
  }
}
