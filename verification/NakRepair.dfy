/** Filling gaps: from the receiver's chunk list to a NAK, to the sender's list, to file data and back. */
module NakRepair {
  import opened Cfdp
  import opened Crc
  import opened ChunkSpec
  import opened Gaps
  import Rx = RxSpec
  import Tx = TxSpec

  // ---------- which adds make progress ----------

  // A run of adds grows the list, or each of them alone would leave it as it is.
  lemma {:induction false} RunGrowsOrIdle(cap: nat, s: seq<Chunk>, cs: seq<Chunk>, i: nat)
    requires 0 < cap && WellFormed(cap, s) && i < |cs|
    requires forall k :: 0 <= k < |cs| ==> Addable(cs[k])
    ensures Total(s) < Total(AddAll(cap, s, cs)) || Add(cap, s, cs[i]) == s
    decreases |cs|
  {
    hide Add, Separated, Total;
    var t := Add(cap, s, cs[0]);
    AddKeepsInvariant(cap, s, cs[0]);
    AddNeverLosesGround(cap, s, cs[0]);
    RunRefinesSet(cap, t, cs[1..]);
    if t == s && 0 < i {
      RunGrowsOrIdle(cap, s, cs[1..], i - 1);
    }
  }

  // A range with a missing byte that touches an entry, or finds a free slot, changes the list.
  lemma NewBytesChange(cap: nat, s: seq<Chunk>, c: Chunk, x: int)
    requires 0 < cap && WellFormed(cap, s) && Addable(c)
    requires c.Has(x) && !Covers(s, x)
    requires |s| < cap || exists k :: 0 <= k < |s| && s[k].Touches(c)
    ensures Add(cap, s, c) != s
  {
    hide Add, Separated, Classify;
    AddKeepsInvariant(cap, s, c);
    assert Covers(Add(cap, s, c), x);
  }

  // ---------- an answered gap ----------

  // The receiver remembers nothing behind the end of the file.
  ghost predicate Within(s: seq<Chunk>, fsize: nat) {
    forall k :: 0 <= k < |s| ==> s[k].End() <= fsize
  }

  // The byte before a gap that does not start the file ends an entry.
  lemma EntryBefore(s: seq<Chunk>, fsize: nat, g: Chunk) returns (k: nat)
    requires Separated(s) && IsGap(s, 0, fsize, g) && 0 < g.offset
    ensures k < |s| && s[k].End() == g.offset
  {
    assert g.Has(g.offset);
    assert Missing(s, 0, fsize, g.offset);
    assert Covers(s, g.offset - 1);
    k :| 0 <= k < |s| && s[k].Has(g.offset - 1);
    if g.offset < s[k].End() {
      assert s[k].Has(g.offset);
    }
  }

  // A gap at the start of the file ends where the first entry begins, unless that
  // begins behind the end of the file.
  lemma EntryBehind(s: seq<Chunk>, fsize: nat, g: Chunk) returns (k: nat)
    requires Separated(s) && IsGap(s, 0, fsize, g) && g.offset == 0 && s != [] && s[0].offset <= fsize
    ensures k < |s| && s[k].offset == g.End()
  {
    k := 0;
    assert s[0].Has(s[0].offset);
    assert Covers(s, s[0].offset);
    assert !g.Has(s[0].offset);
    CoversFromHead(s, g.End());
  }

  // There is a free slot, or an entry that is not wholly behind the file; a list whose
  // entries are all inside the file has the one or the other.
  predicate RoomFor(cap: nat, s: seq<Chunk>, fsize: nat) { |s| < cap || (s != [] && s[0].offset <= fsize) }

  lemma WithinHasRoom(cap: nat, s: seq<Chunk>, fsize: nat)
    requires 0 < cap && Within(s, fsize)
    ensures RoomFor(cap, s, fsize)
  {
    if s != [] {
      assert s[0].End() <= fsize;
    }
  }

  // If all bytes of one gap arrive, in whatever pieces, order and company, the
  // receiver remembers strictly more than before, even if entries were evicted.
  lemma AnsweredGapGrows(cap: nat, s: seq<Chunk>, fsize: nat, g: Chunk, pieces: seq<Chunk>)
    requires 0 < cap && WellFormed(cap, s) && RoomFor(cap, s, fsize) && IsGap(s, 0, fsize, g)
    requires forall i :: 0 <= i < |pieces| ==> Addable(pieces[i])
    requires forall x :: g.Has(x) ==> InSome(pieces, x)
    ensures Total(s) < Total(AddAll(cap, s, pieces))
  {
    hide Add, AddAll, Total, Separated;
    var x := if 0 < g.offset then g.offset else g.End() - 1;
    assert g.Has(x);
    assert Missing(s, 0, fsize, x);
    var i :| 0 <= i < |pieces| && pieces[i].Has(x);
    if 0 < g.offset {
      var k := EntryBefore(s, fsize, g);
      assert s[k].Touches(pieces[i]);
    } else if s != [] && s[0].offset <= fsize {
      var k := EntryBehind(s, fsize, g);
      assert s[k].Touches(pieces[i]);
    }
    NewBytesChange(cap, s, pieces[i], x);
    RunGrowsOrIdle(cap, s, pieces, i);
  }

  // The file in pieces of one byte.
  function Singles(n: nat): (r: seq<Chunk>)
    ensures |r| == n && forall k :: 0 <= k < n ==> r[k] == Chunk(k, 1)
  {
    if n == 0 then [] else Singles(n - 1) + [Chunk(n - 1, 1)]
  }

  lemma SingleDropped(cap: nat, s: seq<Chunk>, x: nat)
    requires 0 < cap && WellFormed(cap, s) && |s| == cap && x + 1 < s[0].offset
    ensures Add(cap, s, Chunk(x, 1)) == s
  {
    var c := Chunk(x, 1);
    forall k | 0 <= k < |s| ensures !s[k].Touches(c) {
      FirstStartsFirst(s, k);
    }
    hide Separated;
    WhenMerged(s, c);
    assert 0 < s[FirstSmallest(s)].size by { GapPositive(s, FirstSmallest(s)); }
  }

  lemma {:induction false} AllDropped(cap: nat, s: seq<Chunk>, cs: seq<Chunk>, fsize: nat)
    requires 0 < cap && WellFormed(cap, s) && |s| == cap && fsize < s[0].offset
    requires forall k :: 0 <= k < |cs| ==> cs[k].size == 1 && cs[k].offset < fsize
    ensures AddAll(cap, s, cs) == s
    decreases |cs|
  {
    hide Add, WellFormed;
    if cs != [] {
      SingleDropped(cap, s, cs[0].offset);
      AllDropped(cap, s, cs[1..], fsize);
    }
  }

  lemma SinglesFill(n: nat, x: int)
    requires 0 <= x < n
    ensures InSome(Singles(n), x)
  {
    assert Singles(n)[x].Has(x);
  }

  // Every answered gap makes progress if and only if the list has room for it: one
  // full of entries behind the end of the file drops a whole file in small pieces.
  lemma AnsweredGapGrowsIff(cap: nat, s: seq<Chunk>, fsize: nat)
    requires 0 < cap && WellFormed(cap, s) && 0 < fsize
    ensures (forall g, pieces ::
               IsGap(s, 0, fsize, g) && AllAddable(pieces) && Answers(pieces, g) ==>
                 Total(s) < Total(AddAll(cap, s, pieces)))
            <==> RoomFor(cap, s, fsize)
  {
    hide Add, AddAll, Total, WellFormed, IsGap, Answers, AllAddable, RoomFor;
    if RoomFor(cap, s, fsize) {
      forall g, pieces | IsGap(s, 0, fsize, g) && AllAddable(pieces) && Answers(pieces, g)
        ensures Total(s) < Total(AddAll(cap, s, pieces))
      {
        assert forall i :: 0 <= i < |pieces| ==> Addable(pieces[i]) by { AllAddableMeans(pieces); }
        AnswersMeans(pieces, g);
        AnsweredGapGrows(cap, s, fsize, g, pieces);
      }
    } else {
      NoRoom(cap, s, fsize);
    }
  }

  ghost predicate AllAddable(cs: seq<Chunk>) { forall i :: 0 <= i < |cs| ==> Addable(cs[i]) }

  ghost predicate Answers(cs: seq<Chunk>, g: Chunk) { forall x :: g.Has(x) ==> InSome(cs, x) }

  lemma AllAddableMeans(cs: seq<Chunk>)
    requires AllAddable(cs)
    ensures forall i :: 0 <= i < |cs| ==> Addable(cs[i])
  {
  }

  lemma AnswersMeans(cs: seq<Chunk>, g: Chunk)
    requires Answers(cs, g)
    ensures forall x :: g.Has(x) ==> InSome(cs, x)
  {
  }

  lemma NoRoom(cap: nat, s: seq<Chunk>, fsize: nat)
    requires 0 < cap && WellFormed(cap, s) && 0 < fsize && !RoomFor(cap, s, fsize)
    ensures var g, pieces := Chunk(0, fsize), Singles(fsize);
            && IsGap(s, 0, fsize, g) && AllAddable(pieces) && Answers(pieces, g) && AddAll(cap, s, pieces) == s
  {
    hide AddAll;
    forall x | 0 <= x < fsize ensures Missing(s, 0, fsize, x) && InSome(Singles(fsize), x) {
      CoversFromHead(s, x);
      SinglesFill(fsize, x);
    }
    AllDropped(cap, s, Singles(fsize), fsize);
    assert s[0].End() <= U32_MAX;
  }

  // ---------- what a NAK asks for ----------

  // A wakeup that should request data finds no gap to report exactly when the
  // file is complete, or the list has room for one entry only and that entry
  // starts the file: then no gap may be reported at all.
  lemma NakSilentIff(cap: nat, s: seq<Chunk>, fsize: nat)
    requires 0 < cap && WellFormed(cap, s)
    ensures Rx.NakGaps(cap, s, fsize) == [] <==>
              (forall x :: 0 <= x < fsize ==> Covers(s, x)) || (cap == 1 && |s| == 1 && s[0].offset == 0)
  {
    var max := if |s| < cap then cap else cap - 1;
    hide Separated, Covers;
    if 0 < max {
      ReportsIffMissing(s, max, fsize, 0);
    } else {
      SingleEntry(s, fsize);
    }
  }

  lemma SingleEntry(s: seq<Chunk>, fsize: nat)
    requires Separated(s) && |s| == 1
    ensures Reported(s, 0, fsize, 0) == [] <==> s[0].offset == 0 || fsize == 0
    ensures (forall x :: 0 <= x < fsize ==> Covers(s, x)) ==> s[0].offset == 0 || fsize == 0
  {
    CoversFromHead(s, 0);
  }

  // The last gap of the file, and no other, may be reported beyond its end.
  lemma LastOverhangs(s: seq<Chunk>, fsize: nat, max: nat, k: nat)
    requires Separated(s) && 0 < max && k < |Reported(s, max, fsize, 0)|
    ensures |Reported(s, max, fsize, 0)| <= |AllGaps(s, 0, fsize)|
    ensures fsize < Reported(s, max, fsize, 0)[k].End()
       <==> k == |AllGaps(s, 0, fsize)| - 1 && Overhangs(s, max, fsize, 0)
  {
    var r, all := Reported(s, max, fsize, 0), AllGaps(s, 0, fsize);
    ClipsTo(s, fsize, max, k);
    ReportedOverhang(s, max, fsize, 0);
    hide Reported, AllGaps, Separated, Overhangs;
    if fsize < r[k].End() {
      EndsLast(s, fsize, max, k);
    }
    if SomeEndsAfter(r, fsize) {
      var n :| 0 <= n < |r| && fsize < r[n].End();
      EndsLast(s, fsize, max, n);
    }
  }

  lemma EndsLast(s: seq<Chunk>, fsize: nat, max: nat, k: nat)
    requires Separated(s) && 0 < max && k < |Reported(s, max, fsize, 0)| && fsize < Reported(s, max, fsize, 0)[k].End()
    ensures k == |AllGaps(s, 0, fsize)| - 1
  {
    var r, all := Reported(s, max, fsize, 0), AllGaps(s, 0, fsize);
    ClipsTo(s, fsize, max, k);
    AllGapsSorted(s, 0, fsize);
    hide Reported, AllGaps, IsGap, Separated;
    if k < |all| - 1 {
      var last := all[|all| - 1];
      assert last in all;
      AllGapsSound(s, 0, fsize, last);
      GapBegins(s, fsize, last);
      Apart(all, k, |all| - 1);
    }
  }

  lemma ClipsTo(s: seq<Chunk>, fsize: nat, max: nat, k: nat)
    requires Separated(s) && 0 < max && k < |Reported(s, max, fsize, 0)|
    ensures |Reported(s, max, fsize, 0)| <= |AllGaps(s, 0, fsize)|
    ensures AllGaps(s, 0, fsize)[k] == Clip(Reported(s, max, fsize, 0)[k], 0, fsize)
  {
    hide Reported, AllGaps, Separated;
    ReportedClipsToGaps(s, max, fsize, 0);
    var r, all := Reported(s, max, fsize, 0), AllGaps(s, 0, fsize);
    assert ClipAll(r, 0, fsize)[k] == Clip(r[k], 0, fsize);
    assert |r| == |Take(all, max)|;
  }

  lemma GapBegins(s: seq<Chunk>, fsize: nat, g: Chunk)
    requires IsGap(s, 0, fsize, g)
    ensures g.offset < fsize
  {
    assert g.Has(g.offset);
  }

  lemma Apart(s: seq<Chunk>, i: nat, j: nat)
    requires Separated(s) && i < j < |s|
    ensures s[i].End() < s[j].offset
  {
    assert s[i].Before(s[j]);
  }

  // Every request names a maximal missing interval of the file, in order; the last
  // one, and no other, may reach beyond the end of the file.
  lemma NakGapsAreGaps(s: seq<Chunk>, fsize: nat, max: nat, n: nat)
    requires Separated(s) && 0 < max
    ensures var gs := Take(Reported(s, max, fsize, 0), n);
            && Separated(gs)
            && (forall k :: 0 <= k < |gs| ==> IsGap(s, 0, fsize, Clip(gs[k], 0, fsize)))
            && (forall k :: 0 <= k < |gs| ==>
                  (fsize < gs[k].End() <==> k == |AllGaps(s, 0, fsize)| - 1 && Overhangs(s, max, fsize, 0)))
  {
    var all, r := AllGaps(s, 0, fsize), Reported(s, max, fsize, 0);
    var gs := Take(r, n);
    ReportedClipsToGaps(s, max, fsize, 0);
    AllGapsSorted(s, 0, fsize);
    ReportedPositive(s, max, fsize);
    hide Separated, AllGaps, Reported, IsGap, Overhangs;
    forall k | 0 <= k < |gs|
      ensures IsGap(s, 0, fsize, Clip(gs[k], 0, fsize)) && k < |all| && Clip(gs[k], 0, fsize) == all[k]
      ensures fsize < gs[k].End() <==> k == |all| - 1 && Overhangs(s, max, fsize, 0)
    {
      assert all[k] == Clip(r[k], 0, fsize);
      assert all[k] in all;
      AllGapsSound(s, 0, fsize, all[k]);
      LastOverhangs(s, fsize, max, k);
    }
    ClippedSeparated(gs, all, fsize);
  }

  lemma ReportedPositive(s: seq<Chunk>, max: nat, fsize: nat)
    requires Separated(s)
    ensures forall k :: 0 <= k < |Reported(s, max, fsize, 0)| ==> 0 < Reported(s, max, fsize, 0)[k].size
  {
    hide LoopGaps;
  }

  lemma ClippedSeparated(gs: seq<Chunk>, all: seq<Chunk>, fsize: nat)
    requires Separated(all) && |gs| <= |all| && forall k :: 0 <= k < |gs| ==> 0 < gs[k].size
    requires forall k :: 0 <= k < |gs| ==> Clip(gs[k], 0, fsize) == all[k] && (fsize < gs[k].End() ==> k == |all| - 1)
    ensures Separated(gs)
  {
    forall i, j {:trigger gs[i].Before(gs[j])} | 0 <= i < j < |gs| ensures gs[i].Before(gs[j]) {
      assert all[i].Before(all[j]) && 0 < all[i].size && 0 < all[j].size;
    }
  }

  // Inside the file no cutting is needed.
  lemma InsideGaps(s: seq<Chunk>, fsize: nat, max: nat, n: nat)
    requires Separated(s) && Within(s, fsize) && 0 < max
    ensures var gs := Take(Reported(s, max, fsize, 0), n);
            Separated(gs) && Within(gs, fsize) && forall k :: 0 <= k < |gs| ==> IsGap(s, 0, fsize, gs[k])
  {
    hide Separated, Reported, AllGaps, IsGap, Covers;
    NakGapsAreGaps(s, fsize, max, n);
    if s != [] {
      assert s[|s| - 1].End() <= fsize;
    }
    var gs := Take(Reported(s, max, fsize, 0), n);
    assert forall k :: 0 <= k < |gs| && gs[k].End() <= fsize ==> Clip(gs[k], 0, fsize) == gs[k];
  }

  // ---------- loading the requests into the sender's list ----------

  lemma InsertElems(s: seq<Chunk>, i: nat, c: Chunk, k: nat)
    requires i <= |s| && k < |InsertAt(s, i, c)|
    ensures InsertAt(s, i, c)[k] in s || InsertAt(s, i, c)[k] == c
  {
  }

  lemma EraseElems(s: seq<Chunk>, i: nat, d: Chunk)
    requires i < |s|
    ensures d in EraseAt(s, i) ==> d in s
  {
  }

  // A range that touches no entry only ever enters the list as it is.
  lemma AddApart(cap: nat, s: seq<Chunk>, c: Chunk, k: nat)
    requires 0 < cap && WellFormed(cap, s) && Addable(c)
    requires forall n :: 0 <= n < |s| ==> !s[n].Touches(c)
    requires k < |Add(cap, s, c)|
    ensures Add(cap, s, c)[k] in s || Add(cap, s, c)[k] == c
  {
    hide Separated, InsertAt, EraseAt;
    WhenMerged(s, c);
    match Classify(cap, s, c) {
      case Inserted =>
        InsertElems(s, LowerBound(s, c.offset, 0), c, k);
      case Evicted(n) =>
        var rest := EraseAt(s, n);
        InsertElems(rest, LowerBound(rest, c.offset, 0), c, k);
        EraseElems(s, n, Add(cap, s, c)[k]);
      case _ =>
    }
  }

  // Every entry is one of the gaps.
  ghost predicate From(s: seq<Chunk>, gs: seq<Chunk>) {
    forall k :: 0 <= k < |s| ==> s[k] in gs
  }

  // Loading requests for gaps behind everything loaded so far: whatever has to be
  // dropped for lack of room, each entry stays a whole gap and the list is not empty.
  lemma {:induction false} LoadGaps(st: Tx.Tx, gs: seq<Chunk>, n: nat)
    requires 0 < st.cap && WellFormed(st.cap, st.chunks) && n <= |gs| && st.fsize <= U32_MAX
    requires Separated(gs) && Within(gs, st.fsize)
    requires From(st.chunks, gs[..n]) && (0 < n ==> st.chunks != [])
    ensures var t := Tx.RecvNak(st, Rx.ToSegs(gs[n..]));
            && WellFormed(st.cap, t.chunks) && From(t.chunks, gs) && (gs != [] ==> t.chunks != [])
            && (n < |gs| ==> t.flags.fdNakPending)
            && t == st.(chunks := t.chunks, flags := st.flags.(fdNakPending := t.flags.fdNakPending))
    decreases |gs| - n
  {
    hide Add, Separated;
    if n < |gs| {
      var g := gs[n];
      var sr := Seg(g.offset, g.End());
      assert Rx.ToSegs(gs[n..])[0] == sr;
      assert gs[n..][1..] == gs[n + 1..];
      GapPositive(gs, n);
      assert Chunk(sr.start, sr.end - sr.start) == g;
      var t := Tx.RecvSeg(st, sr);
      assert t.chunks == Add(st.cap, st.chunks, g);
      LoadOne(st.cap, st.chunks, gs, n);
      LoadGaps(t, gs, n + 1);
    } else {
      assert gs[n..] == [] && gs[..n] == gs;
    }
  }

  lemma GapPositive(gs: seq<Chunk>, n: nat)
    requires Separated(gs) && n < |gs|
    ensures 0 < gs[n].size
  {
  }

  lemma LoadOne(cap: nat, s: seq<Chunk>, gs: seq<Chunk>, n: nat)
    requires 0 < cap && WellFormed(cap, s) && n < |gs|
    requires Separated(gs) && gs[n].End() <= U32_MAX && From(s, gs[..n])
    ensures WellFormed(cap, Add(cap, s, gs[n])) && From(Add(cap, s, gs[n]), gs[..n + 1]) && Add(cap, s, gs[n]) != []
  {
    hide Add, WellFormed;
    var t := Add(cap, s, gs[n]);
    AddKeepsInvariant(cap, s, gs[n]);
    forall k | 0 <= k < |s| ensures !s[k].Touches(gs[n]) {
      var m :| 0 <= m < n && gs[m] == s[k];
      assert gs[m].Before(gs[n]);
    }
    forall k | 0 <= k < |t| ensures t[k] in gs[..n + 1] {
      AddApart(cap, s, gs[n], k);
      if t[k] == gs[n] {
        assert gs[..n + 1][n] == gs[n];
      } else {
        assert t[k] in gs[..n];
        assert gs[..n] <= gs[..n + 1];
      }
    }
    NeverEmpty(cap, s, gs[n]);
  }

  lemma NeverEmpty(cap: nat, s: seq<Chunk>, c: Chunk)
    requires 0 < cap && WellFormed(cap, s) && Addable(c)
    ensures Add(cap, s, c) != []
  {
    hide Separated;
  }

  // ---------- serving the requests ----------

  // Wakeups of CF_CFDP_S_Tick_Nak.
  function Serve(cfg: Config, st: Tx.Tx, src: seq<uint8>, envs: seq<Tx.Env>): (r: (Tx.Tx, seq<Packet>))
    decreases |envs|
  {
    if envs == [] then (st, [])
    else
      var (a, sent) := Tx.TickNak(cfg, st, src, envs[0]);
      var (b, rest) := Serve(cfg, a, src, envs[1..]);
      (b, sent + rest)
  }

  // The ranges of the file data in a list of packets.
  function Blocks(ps: seq<Packet>): seq<Chunk> {
    if ps == [] then []
    else
      var p := ps[0].pdu;
      (if p.FileData? then [Chunk(p.offset, |p.data|)] else []) + Blocks(ps[1..])
  }

  lemma BlocksConcat(a: seq<Packet>, b: seq<Packet>)
    ensures Blocks(a + b) == Blocks(a) + Blocks(b)
  {
    if a == [] {
      assert a + b == b;
    } else {
      assert (a + b)[1..] == a[1..] + b;
      BlocksConcat(a[1..], b);
    }
  }

  // Ascending blocks that do not overlap, all from `lo` on.
  ghost predicate Ascending(bs: seq<Chunk>, lo: nat)
    decreases |bs|
  {
    bs == [] || (lo <= bs[0].offset && 0 < bs[0].size && Ascending(bs[1..], bs[0].End()))
  }

  // One wakeup takes the sent block off the front of the list, and nothing else.
  lemma TickNakFacts(cfg: Config, st: Tx.Tx, src: seq<uint8>, env: Tx.Env)
    requires 0 < cfg.chunkSize && 0 < env.room && Separated(st.chunks)
    ensures var (t, sent) := Tx.TickNak(cfg, st, src, env);
            if t.chunks == st.chunks then Blocks(sent) == []
            else
              && st.chunks != [] && |sent| == 1
              && var n := Blocks(sent)[0].size;
                 && 0 < n <= st.chunks[0].size && n <= cfg.chunkSize
                 && Blocks(sent) == [Chunk(st.chunks[0].offset, n)]
                 && t.chunks == RemoveFromFirst(st.chunks, n)
  {
    if st.flags.fdNakPending && st.chunks != [] {
      GapPositive(st.chunks, 0);
      hide Separated, Digest;
      var c := st.chunks[0];
      var r := Tx.SendFileData(cfg, st, src, c.offset, c.size, false, env);
      if r.result.Sent? {
        SentBlock(r.sent);
        ShorterOrSmaller(st.chunks, r.result.n);
      }
    }
  }

  lemma SentBlock(ps: seq<Packet>)
    requires |ps| == 1 && ps[0].pdu.FileData?
    ensures Blocks(ps) == [Chunk(ps[0].pdu.offset, |ps[0].pdu.data|)]
  {
    assert ps[1..] == [];
  }

  lemma ShorterOrSmaller(s: seq<Chunk>, n: nat)
    requires s != [] && 0 < n
    ensures RemoveFromFirst(s, n) != s
  {
    if n < s[0].size {
      assert RemoveFromFirst(s, n)[0] != s[0];
    }
  }

  // From `lo` on, whatever is left of the list.
  ghost predicate NotBefore(s: seq<Chunk>, lo: nat) { s == [] || lo <= s[0].offset }

  lemma RestNotBefore(s: seq<Chunk>, n: nat)
    requires Separated(s) && s != [] && 0 < n <= s[0].size
    ensures NotBefore(RemoveFromFirst(s, n), s[0].offset + n)
  {
    assert |s| > 1 ==> s[0].Before(s[1]);
  }

  // What was sent and what is still listed make up what was listed.
  ghost predicate Tiles(s: seq<Chunk>, bs: seq<Chunk>, rest: seq<Chunk>) {
    && (forall x :: Covers(s, x) <==> InSome(bs, x) || Covers(rest, x))
    && (forall x :: !(InSome(bs, x) && Covers(rest, x)))
    && Total(s) == Total(bs) + Total(rest)
  }

  // From any list of requests and any room for data per PDU, wakeups send
  // ascending blocks that do not overlap, and every requested byte is either in
  // exactly one of them or still listed; wakeups that fail send nothing.
  lemma {:induction false} ServeTiles(cfg: Config, st: Tx.Tx, src: seq<uint8>, envs: seq<Tx.Env>, lo: nat)
    requires 0 < cfg.chunkSize && forall i :: 0 <= i < |envs| ==> 0 < envs[i].room
    requires Separated(st.chunks) && NotBefore(st.chunks, lo)
    ensures var (t, sent) := Serve(cfg, st, src, envs);
            Separated(t.chunks) && Ascending(Blocks(sent), lo) && Tiles(st.chunks, Blocks(sent), t.chunks)
    decreases |envs|
  {
    hide Tx.TickNak, Separated, Blocks, RemoveFromFirst, Tiles, Ascending, InSome, Covers, Total;
    NothingSent(st.chunks, lo);
    if envs != [] {
      var (a, sent) := Tx.TickNak(cfg, st, src, envs[0]);
      var (t, rest) := Serve(cfg, a, src, envs[1..]);
      TickNakFacts(cfg, st, src, envs[0]);
      BlocksConcat(sent, rest);
      if a.chunks == st.chunks {
        ServeTiles(cfg, a, src, envs[1..], lo);
        assert [] + Blocks(rest) == Blocks(rest);
      } else {
        var b := Blocks(sent)[0];
        RestNotBefore(st.chunks, b.size);
        RemoveFromFirstFacts(st.chunks, b.size);
        ServeTiles(cfg, a, src, envs[1..], b.End());
        AscendingCons(b, Blocks(rest), lo);
        TilesCons(st.chunks, b, a.chunks, Blocks(rest), t.chunks);
      }
    }
  }

  lemma NothingSent(s: seq<Chunk>, lo: nat)
    ensures Blocks([]) == [] && Tiles(s, [], s) && Ascending([], lo)
  {
  }

  lemma AscendingCons(b: Chunk, rest: seq<Chunk>, lo: nat)
    requires lo <= b.offset && 0 < b.size && Ascending(rest, b.End())
    ensures Ascending([b] + rest, lo)
  {
    assert ([b] + rest)[1..] == rest;
  }

  lemma TilesCons(s: seq<Chunk>, b: Chunk, mid: seq<Chunk>, bs: seq<Chunk>, rest: seq<Chunk>)
    requires s != [] && 0 < b.size <= s[0].size && b.offset == s[0].offset
    requires Total(mid) == Total(s) - b.size
    requires forall x :: Covers(mid, x) <==> Covers(s, x) && !(s[0].offset <= x < s[0].offset + b.size && s[0].Has(x))
    requires Tiles(mid, bs, rest)
    ensures Tiles(s, [b] + bs, rest)
  {
    assert ([b] + bs)[1..] == bs;
    forall x ensures InSome([b] + bs, x) <==> b.Has(x) || InSome(bs, x) {
      InSomeHead([b] + bs, x);
    }
    forall x ensures Covers(s, x) <==> b.Has(x) || Covers(mid, x) {
      if b.Has(x) {
        assert s[0].Has(x);
      }
    }
  }

  // A wakeup in which nothing fails.
  predicate Good(cfg: Config, env: Tx.Env) {
    env.bufOk && env.seekOk && 0 < env.room && cfg.chunkSize <= env.read
  }

  // The requests can be read from the open source file.
  ghost predicate Readable(st: Tx.Tx, src: seq<uint8>) {
    st.fdOpen && st.data.cachedPos == st.pos && Within(st.chunks, |src|)
  }

  lemma GoodServes(cfg: Config, st: Tx.Tx, src: seq<uint8>, env: Tx.Env)
    requires 0 < cfg.chunkSize && Good(cfg, env) && Separated(st.chunks) && Readable(st, src)
    requires st.flags.fdNakPending && st.chunks != []
    ensures var t := Tx.TickNak(cfg, st, src, env).0;
            && Readable(t, src) && t.flags.fdNakPending && Separated(t.chunks)
            && Total(t.chunks) < Total(st.chunks)
  {
    hide Separated, Digest, Total, RemoveFromFirst, Within;
    var c := st.chunks[0];
    var n := Min(Min(env.room, c.size), cfg.chunkSize);
    GapPositive(st.chunks, 0);
    RemoveFromFirstFacts(st.chunks, n);
    TrimmedWithin(st.chunks, n, |src|);
    assert Tx.SendFileData(cfg, st, src, c.offset, c.size, false, env).result == Tx.Sent(n) by {
      assert c.End() <= |src| by { FirstWithin(st.chunks, |src|); }
    }
  }

  lemma FirstWithin(s: seq<Chunk>, lim: nat)
    requires s != [] && Within(s, lim)
    ensures s[0].End() <= lim
  {
  }

  lemma TrimmedWithin(s: seq<Chunk>, n: nat, lim: nat)
    requires s != [] && Within(s, lim)
    ensures Within(RemoveFromFirst(s, n), lim)
  {
    assert s[0].End() <= lim;
  }

  // When nothing fails, more wakeups than bytes requested empty the list and
  // then clear the flag.
  lemma {:induction false} ServeFinishes(cfg: Config, st: Tx.Tx, src: seq<uint8>, envs: seq<Tx.Env>)
    requires 0 < cfg.chunkSize && forall i :: 0 <= i < |envs| ==> Good(cfg, envs[i])
    requires Separated(st.chunks) && Readable(st, src) && Total(st.chunks) < |envs|
    requires st.flags.fdNakPending || st.chunks == []
    ensures Serve(cfg, st, src, envs).0.chunks == [] && !Serve(cfg, st, src, envs).0.flags.fdNakPending
    decreases |envs|
  {
    var a := Tx.TickNak(cfg, st, src, envs[0]).0;
    if st.chunks != [] {
      GoodServes(cfg, st, src, envs[0]);
      hide Tx.TickNak, Separated, Readable, Good;
      ServeFinishes(cfg, a, src, envs[1..]);
    } else {
      ServedOut(cfg, a, src, envs[1..]);
    }
  }

  // The file stands where the transaction believes, or further on.
  predicate NotBehind(st: Tx.Tx) { st.fdOpen ==> st.data.cachedPos <= st.pos }

  // What is sent lies inside the file, so an entry that reaches behind its end stays.
  lemma OutsideStays(cfg: Config, st: Tx.Tx, src: seq<uint8>, env: Tx.Env)
    requires 0 < cfg.chunkSize && 0 < env.room && Separated(st.chunks) && NotBehind(st)
    ensures var t := Tx.TickNak(cfg, st, src, env).0;
            NotBehind(t) && Separated(t.chunks) && (!Within(st.chunks, |src|) ==> !Within(t.chunks, |src|))
  {
    hide Digest, Separated, RemoveFromFirst, Within;
    if st.flags.fdNakPending && st.chunks != [] {
      GapPositive(st.chunks, 0);
      var c := st.chunks[0];
      var r := Tx.SendFileData(cfg, st, src, c.offset, c.size, false, env);
      if r.result.Sent? {
        RemoveFromFirstFacts(st.chunks, r.result.n);
        if !Within(st.chunks, |src|) {
          TrimmedOutside(st.chunks, r.result.n, |src|);
        }
      }
    }
  }

  lemma TrimmedOutside(s: seq<Chunk>, n: nat, lim: nat)
    requires s != [] && 0 < n <= s[0].size && s[0].offset + n <= lim && !Within(s, lim)
    ensures !Within(RemoveFromFirst(s, n), lim)
  {
    var k :| 0 <= k < |s| && lim < s[k].End();
    var t := RemoveFromFirst(s, n);
    if n < s[0].size {
      assert t[k].End() == s[k].End();
    } else {
      assert k != 0 && t[k - 1] == s[k];
    }
  }

  lemma {:induction false} ServeKeepsOutside(cfg: Config, st: Tx.Tx, src: seq<uint8>, envs: seq<Tx.Env>)
    requires 0 < cfg.chunkSize && forall i :: 0 <= i < |envs| ==> 0 < envs[i].room
    requires Separated(st.chunks) && NotBehind(st) && !Within(st.chunks, |src|)
    ensures !Within(Serve(cfg, st, src, envs).0.chunks, |src|)
    decreases |envs|
  {
    if envs != [] {
      hide Tx.TickNak, Separated, Within, NotBehind;
      OutsideStays(cfg, st, src, envs[0]);
      ServeKeepsOutside(cfg, Tx.TickNak(cfg, st, src, envs[0]).0, src, envs[1..]);
    }
  }

  // With the file open and in place, that many wakeups in which nothing fails empty
  // the list if and only if no entry reaches behind the end of the file.
  lemma ServeFinishesIff(cfg: Config, st: Tx.Tx, src: seq<uint8>, envs: seq<Tx.Env>)
    requires 0 < cfg.chunkSize && forall i :: 0 <= i < |envs| ==> Good(cfg, envs[i])
    requires Separated(st.chunks) && Total(st.chunks) < |envs| && st.fdOpen && st.data.cachedPos == st.pos
    requires st.flags.fdNakPending || st.chunks == []
    ensures Serve(cfg, st, src, envs).0.chunks == [] <==> Within(st.chunks, |src|)
  {
    hide Serve, Separated, Total;
    if Within(st.chunks, |src|) {
      ServeFinishes(cfg, st, src, envs);
    } else {
      ServeKeepsOutside(cfg, st, src, envs);
    }
  }

  lemma {:induction false} ServedOut(cfg: Config, st: Tx.Tx, src: seq<uint8>, envs: seq<Tx.Env>)
    requires st.chunks == [] && !st.flags.fdNakPending
    ensures Serve(cfg, st, src, envs).0 == st
    decreases |envs|
  {
    if envs != [] {
      ServedOut(cfg, st, src, envs[1..]);
    }
  }

  // ---------- a round of repair, and all of them ----------

  // One whole round. The receiver's NAK reaches a sender, which may have requests of an
  // earlier one, or of an earlier file, and serves until its list is empty; whatever of
  // the sent data is lost, repeated or overtaken, if the bytes of one gap that was
  // listed all arrive, among any other data, then the receiver remembers strictly more
  // bytes than before. A sender without open requests lists whole gaps, and some.
  lemma RepairRound(cfg: Config, cap: nat, s: seq<Chunk>, tx: Tx.Tx, src: seq<uint8>, envs: seq<Tx.Env>,
                    g: Chunk, pieces: seq<Chunk>)
    requires 0 < cap && WellFormed(cap, s) && Within(s, tx.fsize) && tx.fsize <= U32_MAX
    requires 0 < cfg.chunkSize && (forall i :: 0 <= i < |envs| ==> 0 < envs[i].room)
    requires Rx.NakGaps(cap, s, tx.fsize) != [] && 0 < cfg.maxSegments
    requires 0 < tx.cap && WellFormed(tx.cap, tx.chunks)
    requires AllAddable(pieces) && IsGap(s, 0, tx.fsize, g)
    ensures var loaded := Tx.RecvNak(tx, Rx.NakSegs(cfg, cap, s, tx.fsize));
            var (t, sent) := Serve(cfg, loaded, src, envs);
            && loaded.flags.fdNakPending && loaded.chunks != []
            && (tx.chunks == [] ==> forall k :: 0 <= k < |loaded.chunks| ==> IsGap(s, 0, tx.fsize, loaded.chunks[k]))
            && (t.chunks == [] ==>
                  && (forall x :: Covers(loaded.chunks, x) <==> InSome(Blocks(sent), x))
                  && ((forall x :: g.Has(x) ==> Covers(loaded.chunks, x) && InSome(pieces, x)) ==>
                        Total(s) < Total(AddAll(cap, s, pieces))))
  {
    hide Tx.RecvNak, Serve, AddAll, Separated, Total, Reported, Blocks, Ascending, IsGap, Within, Rx.NakGaps;
    hide Rx.ToSegs, InSome;
    var gs := Take(Rx.NakGaps(cap, s, tx.fsize), cfg.maxSegments);
    RequestedGaps(cfg, cap, s, tx.fsize);
    assert gs[0..] == gs && gs[..0] == [];
    NothingListed(tx.cap);
    var loaded := Tx.RecvNak(tx, Rx.NakSegs(cfg, cap, s, tx.fsize));
    LoadsSome(tx, gs);
    if tx.chunks == [] {
      LoadGaps(tx, gs, 0);
    }
    ServeTiles(cfg, loaded, src, envs, 0);
    if forall x :: g.Has(x) ==> InSome(pieces, x) {
      WithinHasRoom(cap, s, tx.fsize);
      AllAddableMeans(pieces);
      AnsweredGapGrows(cap, s, tx.fsize, g, pieces);
    }
  }

  // Whatever the list held before.
  lemma {:induction false} LoadsSome(st: Tx.Tx, gs: seq<Chunk>)
    requires 0 < st.cap && WellFormed(st.cap, st.chunks) && st.fsize <= U32_MAX
    requires Separated(gs) && Within(gs, st.fsize)
    ensures var t := Tx.RecvNak(st, Rx.ToSegs(gs));
            && WellFormed(st.cap, t.chunks) && t.cap == st.cap && (gs != [] || st.chunks != [] ==> t.chunks != [])
            && (gs != [] || st.flags.fdNakPending ==> t.flags.fdNakPending)
    decreases |gs|
  {
    hide Add, Separated, WellFormed;
    if gs != [] {
      var g := gs[0];
      var sr := Seg(g.offset, g.End());
      assert Rx.ToSegs(gs)[0] == sr;
      GapPositive(gs, 0);
      assert Chunk(sr.start, sr.end - sr.start) == g;
      var t := Tx.RecvSeg(st, sr);
      AddKeepsInvariant(st.cap, st.chunks, g);
      NeverEmpty(st.cap, st.chunks, g);
      SeparatedSlice(gs, 1, |gs|);
      assert gs[1..] == gs[1..|gs|];
      LoadsSome(t, gs[1..]);
    }
  }

  lemma NothingListed(cap: nat)
    ensures WellFormed(cap, [])
  {
  }

  // The requests of a NAK are gaps of the receiver, also where the limit on the
  // number of gaps is zero and the code reports the one at the start all the same.
  lemma RequestedGaps(cfg: Config, cap: nat, s: seq<Chunk>, fsize: nat)
    requires 0 < cap && WellFormed(cap, s) && Within(s, fsize) && 0 < cfg.maxSegments
    requires Rx.NakGaps(cap, s, fsize) != []
    ensures var gs := Take(Rx.NakGaps(cap, s, fsize), cfg.maxSegments);
            && gs != [] && Separated(gs) && Within(gs, fsize)
            && Rx.NakSegs(cfg, cap, s, fsize) == Rx.ToSegs(gs)
            && forall k :: 0 <= k < |gs| ==> IsGap(s, 0, fsize, gs[k])
  {
    var max := if |s| < cap then cap else cap - 1;
    if 0 < max {
      hide Separated, Reported, IsGap;
      InsideGaps(s, fsize, max, cfg.maxSegments);
    } else {
      LoneHeadGap(s, fsize);
    }
  }

  lemma LoneHeadGap(s: seq<Chunk>, fsize: nat)
    requires Separated(s) && Within(s, fsize) && |s| == 1 && Reported(s, 0, fsize, 0) != []
    ensures Reported(s, 0, fsize, 0) == [Chunk(0, s[0].offset)] && 0 < s[0].offset <= fsize
    ensures IsGap(s, 0, fsize, Chunk(0, s[0].offset))
  {
    assert s[0].End() <= fsize;
    assert s[0].Has(s[0].offset);
    forall x ensures Covers(s, x) <==> s[0].Has(x) {
      CoversFromHead(s, x);
      assert s[1..] == [];
    }
  }

  // In every round some gap is answered, and nothing behind the end of the file arrives.
  ghost predicate Rounds(cap: nat, s: seq<Chunk>, fsize: nat, rounds: seq<seq<Chunk>>)
    requires 0 < cap
    decreases |rounds|
  {
    rounds == [] ||
    (&& (forall i :: 0 <= i < |rounds[0]| ==> Addable(rounds[0][i]) && rounds[0][i].End() <= fsize)
     && (exists g :: IsGap(s, 0, fsize, g) && forall x :: g.Has(x) ==> InSome(rounds[0], x))
     && Rounds(cap, AddAll(cap, s, rounds[0]), fsize, rounds[1..]))
  }

  lemma {:induction false} AddAllWithin(cap: nat, s: seq<Chunk>, cs: seq<Chunk>, fsize: nat)
    requires 0 < cap && WellFormed(cap, s) && Within(s, fsize)
    requires forall i :: 0 <= i < |cs| ==> Addable(cs[i]) && cs[i].End() <= fsize
    ensures Within(AddAll(cap, s, cs), fsize)
    decreases |cs|
  {
    if cs != [] {
      hide Add, Separated;
      AddKeepsInvariant(cap, s, cs[0]);
      AddStaysBelow(cap, s, cs[0], fsize);
      AddAllWithin(cap, Add(cap, s, cs[0]), cs[1..], fsize);
    }
  }

  lemma TotalWithin(s: seq<Chunk>, fsize: nat)
    requires Separated(s) && Within(s, fsize)
    ensures Total(s) <= fsize
  {
    hide Total;
    TotalOne(Chunk(0, fsize));
    if s != [] {
      GapPositive(s, 0);
      assert s[0].End() <= fsize;
      var whole := [Chunk(0, fsize)];
      forall x | Covers(s, x) ensures Covers(whole, x) {
        assert whole[0].Has(x);
      }
      TotalMonotone(s, whole);
    }
  }

  // Data of the file keep the room there is for them.
  lemma AddKeepsRoom(cap: nat, s: seq<Chunk>, c: Chunk, fsize: nat)
    requires 0 < cap && WellFormed(cap, s) && RoomFor(cap, s, fsize) && Addable(c) && c.End() <= fsize
    ensures RoomFor(cap, Add(cap, s, c), fsize)
  {
    hide Add, Separated, Classify;
    var t := Add(cap, s, c);
    AddKeepsInvariant(cap, s, c);
    assert c.Has(c.offset);
    if !Classify(cap, s, c).Dropped? {
      assert Covers(t, c.offset);
      CoversFromHead(t, c.offset);
    }
  }

  lemma {:induction false} AddAllKeepsRoom(cap: nat, s: seq<Chunk>, cs: seq<Chunk>, fsize: nat)
    requires 0 < cap && WellFormed(cap, s) && RoomFor(cap, s, fsize)
    requires forall i :: 0 <= i < |cs| ==> Addable(cs[i]) && cs[i].End() <= fsize
    ensures RoomFor(cap, AddAll(cap, s, cs), fsize)
    decreases |cs|
  {
    if cs != [] {
      hide Add, Separated, RoomFor;
      AddKeepsInvariant(cap, s, cs[0]);
      AddKeepsRoom(cap, s, cs[0], fsize);
      AddAllKeepsRoom(cap, Add(cap, s, cs[0]), cs[1..], fsize);
    }
  }

  // The missing bytes bound the number of rounds, however small the list is and
  // whatever it remembers behind the end of the file, as long as it has room.
  lemma {:induction false} RepairTerminates(cap: nat, s: seq<Chunk>, fsize: nat, lim: nat, rounds: seq<seq<Chunk>>)
    requires 0 < cap && WellFormed(cap, s) && RoomFor(cap, s, fsize) && Within(s, lim) && fsize <= lim
    requires Rounds(cap, s, fsize, rounds)
    ensures |rounds| + Total(s) <= lim
    decreases |rounds|
  {
    hide Separated, AddAll, Total, RoomFor, Within;
    if rounds == [] {
      TotalWithin(s, lim);
    } else {
      var g :| IsGap(s, 0, fsize, g) && forall x :: g.Has(x) ==> InSome(rounds[0], x);
      AnsweredGapGrows(cap, s, fsize, g, rounds[0]);
      RunRefinesSet(cap, s, rounds[0]);
      AddAllWithin(cap, s, rounds[0], lim);
      AddAllKeepsRoom(cap, s, rounds[0], fsize);
      RepairTerminates(cap, AddAll(cap, s, rounds[0]), fsize, lim, rounds[1..]);
    }
  }
}
