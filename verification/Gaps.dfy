/**
 Which bytes of a file a chunk list is missing: the gaps `CF_ChunkList_ComputeGaps`
 reports, against the list of all maximal missing intervals.
 */
module Gaps {
  import opened ChunkSpec

  // ---------- what the code reports ----------

  // The loop over entries i, i+1, ...: the gap behind each entry, until `budget`
  // reports were made or the entries reach `total`.
  function LoopGaps(s: seq<Chunk>, i: nat, budget: nat, total: nat, start: nat): (r: seq<Chunk>)
    requires Separated(s) && i <= |s|
    ensures |r| <= budget
    ensures forall k :: 0 <= k < |r| ==> start <= r[k].offset && 0 < r[k].size
    decreases |s| - i
  {
    if budget == 0 || i == |s| then []
    else
      var nextOff := if i == |s| - 1 then total else s[i + 1].offset;
      var gapStart := s[i].End();
      var from := if start < gapStart then gapStart else start;
      assert i < |s| - 1 ==> s[i].Before(s[i + 1]);
      if total <= gapStart then []
      else if start < nextOff then
        [Span(from, nextOff)] + LoopGaps(s, i + 1, budget - 1, total, start)
      else LoopGaps(s, i + 1, budget, total, start)
  }

  lemma LoopDone(s: seq<Chunk>, i: nat, budget: nat, total: nat, start: nat)
    requires Separated(s) && i <= |s| && (budget == 0 || i == |s| || total <= s[i].End())
    ensures LoopGaps(s, i, budget, total, start) == []
  {
  }

  // One turn of the loop.
  lemma LoopStep(s: seq<Chunk>, i: nat, budget: nat, total: nat, start: nat)
    requires Separated(s) && i < |s| && 0 < budget && start < total
    ensures var nextOff := if i == |s| - 1 then total else s[i + 1].offset;
            var from := Max(start, s[i].End());
            LoopGaps(s, i, budget, total, start) ==
              if total <= s[i].End() then []
              else if start < nextOff then [Span(from, nextOff)] + LoopGaps(s, i + 1, budget - 1, total, start)
              else LoopGaps(s, i + 1, budget, total, start)
    ensures s[i].End() < total && i < |s| - 1 ==> s[i].End() < s[i + 1].offset
  {
    assert i < |s| - 1 ==> s[i].Before(s[i + 1]);
  }

  // The reported gaps, in order.
  function Reported(s: seq<Chunk>, maxGaps: nat, total: nat, start: nat): (r: seq<Chunk>)
    requires Separated(s) && start <= total
    ensures s != [] || start == total ==> forall k :: 0 <= k < |r| ==> start <= r[k].offset && 0 < r[k].size
    ensures s == [] && start < total ==> r == [Chunk(0, total)]
    ensures start == total ==> r == []
  {
    if start == total then []
    else if s == [] then [Chunk(0, total)]
    else if start < s[0].offset then
      [Chunk(start, s[0].offset - start)] + LoopGaps(s, 0, if maxGaps == 0 then 0 else maxGaps - 1, total, start)
    else LoopGaps(s, 0, maxGaps, total, start)
  }

  // ---------- what is missing ----------

  ghost predicate Missing(s: seq<Chunk>, start: nat, total: nat, x: int) {
    start <= x < total && !Covers(s, x)
  }

  // A missing interval of [start, total) that cannot be made longer at either end.
  ghost predicate IsGap(s: seq<Chunk>, start: nat, total: nat, g: Chunk) {
    && 0 < g.size
    && (forall x :: g.Has(x) ==> Missing(s, start, total, x))
    && !Missing(s, start, total, g.offset - 1)
    && !Missing(s, start, total, g.End())
  }

  // All maximal missing intervals of [start, total), in ascending order.
  function AllGaps(s: seq<Chunk>, start: nat, total: nat): seq<Chunk>
    decreases |s|
  {
    if total <= start then []
    else if s == [] then [Chunk(start, total - start)]
    else if start < s[0].offset then
      [Chunk(start, Min(s[0].offset, total) - start)] + AllGaps(s[1..], s[0].End(), total)
    else AllGaps(s[1..], Max(start, s[0].End()), total)
  }

  // ---------- AllGaps is right ----------

  // Below the first entry nothing is remembered, so only bytes from its end on
  // are left to the remaining entries.
  lemma CoversFromHead(s: seq<Chunk>, x: int)
    requires Separated(s) && s != []
    ensures x < s[0].offset ==> !Covers(s, x)
    ensures x <= s[0].End() ==> !Covers(s[1..], x)
    ensures s[0].offset <= x ==> (Covers(s, x) <==> x < s[0].End() || Covers(s[1..], x))
  {
    HeadCovers(s, x);
    forall k | 0 <= k < |s[1..]| ensures x <= s[0].End() ==> !s[1..][k].Has(x) {
      assert s[0].Before(s[k + 1]);
    }
  }

  lemma {:induction false} AllGapsSound(s: seq<Chunk>, start: nat, total: nat, g: Chunk)
    requires Separated(s) && g in AllGaps(s, start, total)
    ensures start <= g.offset && g.End() <= total && IsGap(s, start, total, g)
    decreases |s|
  {
    if s != [] {
      SeparatedSlice(s, 1, |s|);
      forall x ensures CoverCase(s, x) {
        CoversFromHead(s, x);
      }
      if start < s[0].offset {
        if g != AllGaps(s, start, total)[0] {
          AllGapsSound(s[1..], s[0].End(), total, g);
          GapOfTail(s, start, s[0].End(), total, g);
        } else {
          assert CoverCase(s, g.End());
          forall x | g.Has(x) ensures Missing(s, start, total, x) {
            assert CoverCase(s, x);
          }
        }
      } else {
        AllGapsSound(s[1..], Max(start, s[0].End()), total, g);
        GapOfTail(s, start, Max(start, s[0].End()), total, g);
      }
    }
  }

  // CoversFromHead as a predicate, to be quantified over.
  ghost predicate CoverCase(s: seq<Chunk>, x: int)
    requires s != []
  {
    && (x < s[0].offset ==> !Covers(s, x))
    && (x <= s[0].End() ==> !Covers(s[1..], x))
    && (s[0].offset <= x ==> (Covers(s, x) <==> x < s[0].End() || Covers(s[1..], x)))
  }

  // Behind the first entry the whole list and its tail have the same gaps.
  lemma GapOfTail(s: seq<Chunk>, start: nat, from: nat, total: nat, g: Chunk)
    requires Separated(s) && s != [] && from == Max(start, s[0].End())
    requires from <= g.offset && g.End() <= total && IsGap(s[1..], from, total, g)
    ensures IsGap(s, start, total, g)
  {
    forall x | g.Has(x) ensures Missing(s, start, total, x) {
      CoversFromHead(s, x);
      assert Missing(s[1..], from, total, x);
    }
    CoversFromHead(s, g.offset - 1);
    CoversFromHead(s, g.End());
  }

  // Every missing byte lies in some gap of the list.
  lemma {:induction false} AllGapsComplete(s: seq<Chunk>, start: nat, total: nat, x: int)
    requires Separated(s) && Missing(s, start, total, x)
    ensures exists g :: g in AllGaps(s, start, total) && g.Has(x)
    decreases |s|
  {
    if s == [] {
      assert AllGaps(s, start, total)[0].Has(x);
    } else {
      SeparatedSlice(s, 1, |s|);
      CoversFromHead(s, x);
      if x < s[0].offset {
        assert AllGaps(s, start, total)[0].Has(x);
      } else {
        var from := Max(start, s[0].End());
        AllGapsComplete(s[1..], from, total, x);
        var g :| g in AllGaps(s[1..], from, total) && g.Has(x);
        assert g in AllGaps(s, start, total);
      }
    }
  }

  lemma {:induction false} AllGapsFrom(s: seq<Chunk>, start: nat, total: nat, g: Chunk)
    requires Separated(s) && g in AllGaps(s, start, total)
    ensures start <= g.offset
    decreases |s|
  {
    AllGapsSound(s, start, total, g);
  }

  // The gaps are in ascending order and remembered bytes lie between them.
  lemma {:induction false} AllGapsSorted(s: seq<Chunk>, start: nat, total: nat)
    requires Separated(s)
    ensures Separated(AllGaps(s, start, total))
    decreases |s|
  {
    if s != [] && start < total {
      SeparatedSlice(s, 1, |s|);
      if start < s[0].offset {
        var rest := AllGaps(s[1..], s[0].End(), total);
        AllGapsSorted(s[1..], s[0].End(), total);
        if rest != [] {
          AllGapsFrom(s[1..], s[0].End(), total, rest[0]);
        }
        SeparatedConcat([Chunk(start, Min(s[0].offset, total) - start)], rest);
      } else {
        AllGapsSorted(s[1..], Max(start, s[0].End()), total);
      }
    }
  }

  // Two maximal intervals that share a byte are the same.
  lemma GapsAreMaximal(s: seq<Chunk>, start: nat, total: nat, g: Chunk, h: Chunk, x: int)
    requires IsGap(s, start, total, g) && IsGap(s, start, total, h) && g.Has(x) && h.Has(x)
    ensures g == h
  {
    if g.offset < h.offset {
      assert g.Has(h.offset - 1);
    }
    if h.offset < g.offset {
      assert h.Has(g.offset - 1);
    }
    if g.End() < h.End() {
      assert h.Has(g.End());
    }
    if h.End() < g.End() {
      assert g.Has(h.End());
    }
  }

  // AllGaps holds exactly the maximal missing intervals.
  lemma AllGapsExact(s: seq<Chunk>, start: nat, total: nat, g: Chunk)
    requires Separated(s)
    ensures g in AllGaps(s, start, total) <==> IsGap(s, start, total, g)
  {
    if g in AllGaps(s, start, total) {
      AllGapsSound(s, start, total, g);
    }
    if IsGap(s, start, total, g) {
      assert g.Has(g.offset);
      AllGapsComplete(s, start, total, g.offset);
      var h :| h in AllGaps(s, start, total) && h.Has(g.offset);
      AllGapsSound(s, start, total, h);
      GapsAreMaximal(s, start, total, g, h, g.offset);
    }
  }

  // ---------- the code against the definition ----------

  function Clip(g: Chunk, start: nat, total: nat): Chunk {
    Span(Max(g.offset, start), Min(g.End(), total))
  }

  function ClipAll(gs: seq<Chunk>, start: nat, total: nat): (r: seq<Chunk>)
    ensures |r| == |gs|
    ensures forall k :: 0 <= k < |gs| ==> r[k] == Clip(gs[k], start, total)
  {
    if gs == [] then [] else [Clip(gs[0], start, total)] + ClipAll(gs[1..], start, total)
  }

  function Take(gs: seq<Chunk>, n: nat): (r: seq<Chunk>)
    ensures r == if n < |gs| then gs[..n] else gs
  {
    if n < |gs| then gs[..n] else gs
  }

  lemma TakeCons(g: Chunk, rest: seq<Chunk>, n: nat)
    requires 0 < n
    ensures Take([g] + rest, n) == [g] + Take(rest, n - 1)
  {
  }

  lemma ClipCons(g: Chunk, rest: seq<Chunk>, start: nat, total: nat)
    ensures ClipAll([g] + rest, start, total) == [Clip(g, start, total)] + ClipAll(rest, start, total)
  {
    assert ([g] + rest)[1..] == rest;
  }

  // One gap reported in front of the others, on both sides.
  lemma StepMatches(g: Chunk, rest: seq<Chunk>, c: Chunk, all: seq<Chunk>, n: nat, start: nat, total: nat)
    requires 0 < n && Clip(g, start, total) == c
    requires ClipAll(rest, start, total) == Take(all, n - 1)
    ensures ClipAll([g] + rest, start, total) == Take([c] + all, n)
  {
    TakeCons(c, all, n);
    ClipCons(g, rest, start, total);
  }

  // The gaps behind entry i are those up to entry i + 1 and those behind it.
  lemma GapsBehind(s: seq<Chunk>, i: nat, total: nat, start: nat)
    requires Separated(s) && i + 1 < |s| && Max(start, s[i].End()) < total
    ensures var from, n := Max(start, s[i].End()), s[i + 1].offset;
            AllGaps(s[i + 1..], from, total) ==
              if start < n then [Span(from, Min(n, total))] + AllGaps(s[i + 2..], Max(start, s[i + 1].End()), total)
              else AllGaps(s[i + 2..], Max(start, s[i + 1].End()), total)
  {
    assert s[i].Before(s[i + 1]);
    assert s[i + 1..][1..] == s[i + 2..];
  }

  lemma {:induction false} LoopMatches(s: seq<Chunk>, i: nat, budget: nat, total: nat, start: nat)
    requires Separated(s) && i < |s| && start < total
    ensures ClipAll(LoopGaps(s, i, budget, total, start), start, total)
         == Take(AllGaps(s[i + 1..], Max(start, s[i].End()), total), budget)
    decreases |s| - i, 1
  {
    if budget != 0 && s[i].End() < total {
      if i == |s| - 1 {
        assert LoopGaps(s, i + 1, budget - 1, total, start) == [];
        assert s[i + 1..] == [];
      } else {
        GapsBehind(s, i, total, start);
        LoopMatchesStep(s, i, budget, total, start);
      }
    }
  }

  lemma {:induction false} LoopMatchesStep(s: seq<Chunk>, i: nat, budget: nat, total: nat, start: nat)
    requires Separated(s) && i + 1 < |s| && start < total && 0 < budget && s[i].End() < total
    ensures var gaps := AllGaps(s[i + 2..], Max(start, s[i + 1].End()), total);
            var from, n := Max(start, s[i].End()), s[i + 1].offset;
            ClipAll(LoopGaps(s, i, budget, total, start), start, total)
              == Take(if start < n then [Span(from, Min(n, total))] + gaps else gaps, budget)
    decreases |s| - i, 0
  {
    var gaps := AllGaps(s[i + 2..], Max(start, s[i + 1].End()), total);
    var from, n := Max(start, s[i].End()), s[i + 1].offset;
    if start < n {
      LoopMatches(s, i + 1, budget - 1, total, start);
      assert s[i].Before(s[i + 1]);
      StepMatches(Span(from, n), LoopGaps(s, i + 1, budget - 1, total, start),
                  Span(from, Min(n, total)), gaps, budget, start, total);
    } else {
      LoopMatches(s, i + 1, budget, total, start);
    }
  }

  lemma GapsAtHead(s: seq<Chunk>, start: nat, total: nat)
    requires Separated(s) && s != [] && start < total
    ensures AllGaps(s, start, total) ==
              if start < s[0].offset then
                [Span(start, Min(s[0].offset, total))] + AllGaps(s[1..], Max(start, s[0].End()), total)
              else AllGaps(s[1..], Max(start, s[0].End()), total)
  {
  }

  // Cut at `start` and `total`, what is reported is exactly the first maxGaps
  // maximal missing intervals of [start, total).
  lemma ReportedClipsToGaps(s: seq<Chunk>, maxGaps: nat, total: nat, start: nat)
    requires Separated(s) && start <= total && 0 < maxGaps
    ensures ClipAll(Reported(s, maxGaps, total, start), start, total) == Take(AllGaps(s, start, total), maxGaps)
  {
    hide Separated, LoopGaps, ClipAll, AllGaps;
    if start < total && s != [] {
      GapsAtHead(s, start, total);
      if start < s[0].offset {
        LoopMatches(s, 0, maxGaps - 1, total, start);
        StepMatches(Span(start, s[0].offset), LoopGaps(s, 0, maxGaps - 1, total, start),
                    Span(start, Min(s[0].offset, total)),
                    AllGaps(s[1..], Max(start, s[0].End()), total), maxGaps, start, total);
      } else {
        LoopMatches(s, 0, maxGaps, total, start);
      }
    } else {
      NoEntries(s, maxGaps, total, start);
    }
  }

  lemma NoEntries(s: seq<Chunk>, maxGaps: nat, total: nat, start: nat)
    requires Separated(s) && start <= total && 0 < maxGaps && (s == [] || start == total)
    ensures ClipAll(Reported(s, maxGaps, total, start), start, total) == Take(AllGaps(s, start, total), maxGaps)
  {
    if start < total {
      assert Clip(Chunk(0, total), start, total) == Chunk(start, total - start);
    }
  }

  // Nothing is reported exactly when nothing is missing.
  lemma ReportsIffMissing(s: seq<Chunk>, maxGaps: nat, total: nat, start: nat)
    requires Separated(s) && start <= total && 0 < maxGaps
    ensures Reported(s, maxGaps, total, start) == [] <==> forall x :: start <= x < total ==> Covers(s, x)
  {
    ReportedClipsToGaps(s, maxGaps, total, start);
    var all := AllGaps(s, start, total);
    if all == [] {
      forall x | start <= x < total ensures Covers(s, x) {
        if Missing(s, start, total, x) {
          AllGapsComplete(s, start, total, x);
        }
      }
    } else {
      AllGapsSound(s, start, total, all[0]);
      assert all[0].Has(all[0].offset);
    }
  }

  // ---------- when no cutting is needed ----------

  // The last gap below `total` reaches past it up to a later entry, and is
  // among the first maxGaps.
  ghost predicate Overhangs(s: seq<Chunk>, maxGaps: nat, total: nat, start: nat) {
    && start < total && s != []
    && total < s[|s| - 1].offset
    && !Covers(s, total - 1) && !Covers(s, total)
    && |AllGaps(s, start, total)| <= maxGaps
  }

  ghost predicate SomeEndsAfter(gs: seq<Chunk>, total: nat) {
    exists k :: 0 <= k < |gs| && total < gs[k].End()
  }

  lemma SomeEndsAfterCons(g: Chunk, rest: seq<Chunk>, total: nat)
    ensures SomeEndsAfter([g] + rest, total) <==> total < g.End() || SomeEndsAfter(rest, total)
  {
    if total < g.End() {
      assert ([g] + rest)[0] == g;
    }
    if k :| 0 <= k < |rest| && total < rest[k].End() {
      assert ([g] + rest)[k + 1] == rest[k];
    }
  }

  // Whether a list overhangs, decided at its first entry.
  lemma OverhangAtHead(s: seq<Chunk>, budget: nat, total: nat, from: nat)
    requires Separated(s) && s != [] && from < total
    ensures from < s[0].offset ==>
              (Overhangs(s, budget, total, from) <==>
               0 < budget && (total < s[0].offset || Overhangs(s[1..], budget - 1, total, s[0].End())))
    ensures s[0].offset <= from ==>
              (Overhangs(s, budget, total, from) <==> Overhangs(s[1..], budget, total, Max(from, s[0].End())))
  {
    CoversFromHead(s, total);
    CoversFromHead(s, total - 1);
    FirstStartsFirst(s, |s| - 1);
    if |s| == 1 {
      assert s[1..] == [];
    } else {
      assert s[|s| - 1] == s[1..][|s[1..]| - 1];
    }
    if from < total < s[0].offset {
      assert AllGaps(s[1..], s[0].End(), total) == [];
      assert |AllGaps(s, from, total)| == 1;
    }
  }

  lemma {:induction false} LoopOverhang(s: seq<Chunk>, i: nat, budget: nat, total: nat, start: nat)
    requires Separated(s) && i < |s| && start < total
    ensures SomeEndsAfter(LoopGaps(s, i, budget, total, start), total)
       <==> Overhangs(s[i + 1..], budget, total, Max(start, s[i].End()))
    decreases |s| - i
  {
    hide Covers, AllGaps;
    var from, tail := Max(start, s[i].End()), s[i + 1..];
    if from < total && tail != [] {
      var n := tail[0].offset;
      assert s[i].Before(s[i + 1]);
      assert tail[1..] == s[i + 2..];
      SeparatedSlice(s, i + 1, |s|);
      OverhangAtHead(tail, budget, total, from);
      if budget == 0 {
        NoBudget(tail, total, from);
      } else if start < n {
        LoopOverhang(s, i + 1, budget - 1, total, start);
        SomeEndsAfterCons(Span(from, n), LoopGaps(s, i + 1, budget - 1, total, start), total);
      } else {
        LoopOverhang(s, i + 1, budget, total, start);
      }
    }
  }

  lemma NoBudget(s: seq<Chunk>, total: nat, from: nat)
    requires Separated(s)
    ensures !Overhangs(s, 0, total, from)
  {
    if from < total && !Covers(s, total - 1) {
      AllGapsComplete(s, from, total, total - 1);
    }
  }

  lemma ReportedOverhang(s: seq<Chunk>, maxGaps: nat, total: nat, start: nat)
    requires Separated(s) && start <= total && 0 < maxGaps
    ensures SomeEndsAfter(Reported(s, maxGaps, total, start), total) <==> Overhangs(s, maxGaps, total, start)
  {
    hide AllGaps, Reported, LoopGaps, Covers, Separated;
    if start < total && s != [] {
      assert s[1..] == s[0 + 1..];
      OverhangAtHead(s, maxGaps, total, start);
      ReportedHead(s, maxGaps, total, start);
      if start < s[0].offset {
        LoopOverhang(s, 0, maxGaps - 1, total, start);
      } else {
        LoopOverhang(s, 0, maxGaps, total, start);
      }
    }
  }

  lemma ReportedHead(s: seq<Chunk>, maxGaps: nat, total: nat, start: nat)
    requires Separated(s) && s != [] && start < total && 0 < maxGaps
    ensures start < s[0].offset ==>
              (SomeEndsAfter(Reported(s, maxGaps, total, start), total)
          <==> total < s[0].offset || SomeEndsAfter(LoopGaps(s, 0, maxGaps - 1, total, start), total))
    ensures s[0].offset <= start ==> Reported(s, maxGaps, total, start) == LoopGaps(s, 0, maxGaps, total, start)
  {
    if start < s[0].offset {
      SomeEndsAfterCons(Chunk(start, s[0].offset - start), LoopGaps(s, 0, maxGaps - 1, total, start), total);
    }
  }

  // The reported gaps are themselves the first maximal missing intervals of
  // [start, total) exactly when the list is not empty (or nothing is cut off
  // at the front) and no gap overhangs `total`.
  lemma ReportedExactIff(s: seq<Chunk>, maxGaps: nat, total: nat, start: nat)
    requires Separated(s) && start <= total && 0 < maxGaps
    ensures Reported(s, maxGaps, total, start) == Take(AllGaps(s, start, total), maxGaps)
       <==> !(s == [] && 0 < start < total) && !Overhangs(s, maxGaps, total, start)
  {
    hide AllGaps, Reported, Covers, Separated;
    var r := Reported(s, maxGaps, total, start);
    ReportedClipsToGaps(s, maxGaps, total, start);
    ReportedOverhang(s, maxGaps, total, start);
    if s != [] || start == total {
      if !SomeEndsAfter(r, total) {
        assert forall k :: 0 <= k < |r| ==> r[k].End() <= total;
        assert r == ClipAll(r, start, total);
      } else {
        var k :| 0 <= k < |r| && total < r[k].End();
        assert Clip(r[k], start, total) != r[k];
      }
    } else {
      assert r[0] == Chunk(0, total);
    }
  }

  // No gap ends behind both the scope and the entries.
  lemma ReportedBelow(s: seq<Chunk>, maxGaps: nat, total: nat, start: nat, lim: nat)
    requires Separated(s) && start <= total <= lim && forall k :: 0 <= k < |s| ==> s[k].End() <= lim
    ensures forall k :: 0 <= k < |Reported(s, maxGaps, total, start)| ==>
            Reported(s, maxGaps, total, start)[k].End() <= lim
  {
    hide LoopGaps;
    if s != [] && start < total {
      LoopBelow(s, 0, maxGaps, total, start, lim);
      LoopBelow(s, 0, if maxGaps == 0 then 0 else maxGaps - 1, total, start, lim);
      assert s[0].End() <= lim;
    }
  }

  lemma {:induction false} LoopBelow(s: seq<Chunk>, i: nat, budget: nat, total: nat, start: nat, lim: nat)
    requires Separated(s) && i <= |s| && start <= total <= lim && forall k :: 0 <= k < |s| ==> s[k].End() <= lim
    ensures forall k :: 0 <= k < |LoopGaps(s, i, budget, total, start)| ==>
              LoopGaps(s, i, budget, total, start)[k].End() <= lim
    decreases |s| - i
  {
    if budget != 0 && i < |s| {
      LoopBelow(s, i + 1, budget - 1, total, start, lim);
      LoopBelow(s, i + 1, budget, total, start, lim);
      if start < total {
        LoopStep(s, i, budget, total, start);
      }
      assert i < |s| - 1 ==> s[i + 1].End() <= lim;
    }
  }

  // A list reaching past `total` gets a gap reported that does too.
  lemma OverhangExample()
    ensures var s := [Chunk(0, 5), Chunk(50, 10)];
            Separated(s) && Reported(s, 3, 45, 0) == [Chunk(5, 45)] && AllGaps(s, 0, 45) == [Chunk(5, 40)]
  {
    var s := [Chunk(0, 5), Chunk(50, 10)];
    assert LoopGaps(s, 1, 2, 45, 0) == [];
    assert s[1..] == [Chunk(50, 10)];
    assert AllGaps(s[1..], 5, 45) == [Chunk(5, 40)];
  }
}
