/** The chunk list of the source: a fixed array whose entries are shifted, merged and erased in place. */
module ChunkLists {
  import opened Cfdp
  import opened ChunkSpec
  import Crc
  import Gaps

  // Every value stored through this type is checked not to roll over.
  type uint32 = Crc.uint32

  class ChunkList {
    const maxChunks: nat
    const chunks: array<Chunk>
    var count: nat

    ghost predicate Shape()
      reads this
    {
      0 < maxChunks && chunks.Length == maxChunks && count <= maxChunks
    }

    ghost function Contents(): (s: seq<Chunk>)
      requires Shape()
      reads this, chunks
    {
      chunks[..count]
    }

    ghost predicate Valid()
      reads this, chunks
    {
      Shape() && WellFormed(maxChunks, Contents())
    }

    constructor (n: nat)
      requires 0 < n
      ensures Valid() && fresh(chunks) && maxChunks == n && Contents() == []
    {
      maxChunks := n;
      chunks := new Chunk[n](_ => Chunk(0, 0));
      count := 0;
    }

    method Reset()
      requires Shape()
      modifies this, chunks
      ensures Valid() && Contents() == []
      ensures forall k :: 0 <= k < maxChunks ==> chunks[k] == Chunk(0, 0)
    {
      count := 0;
      forall k | 0 <= k < maxChunks {
        chunks[k] := Chunk(0, 0);
      }
    }

    method EraseRange(start: nat, end: nat)
      requires Shape() && end <= count
      modifies this, chunks
      ensures Shape()
      ensures Contents() == if start < end then old(Contents())[..start] + old(Contents())[end..] else old(Contents())
    {
      if start < end {
        var moved := count - end;
        forall k | start <= k < start + moved {
          chunks[k] := chunks[k + (end - start)];
        }
        ghost var was := old(Contents());
        count := count - (end - start);
        assert Contents()[..start] == was[..start];
        assert Contents()[start..] == was[end..];
      }
    }

    method EraseChunk(index: nat)
      requires Shape() && index < count
      modifies this, chunks
      ensures Shape() && Contents() == EraseAt(old(Contents()), index)
    {
      forall k | index <= k < count - 1 {
        chunks[k] := chunks[k + 1];
      }
      count := count - 1;
      assert Contents()[..index] == old(Contents())[..index];
      assert Contents()[index..] == old(Contents())[index + 1..];
    }

    method InsertChunk(indexBefore: nat, c: Chunk)
      requires Shape() && count < maxChunks && indexBefore <= count
      modifies this, chunks
      ensures Shape() && Contents() == InsertAt(old(Contents()), indexBefore, c)
    {
      if count != 0 && indexBefore != count {
        forall k | indexBefore < k <= count {
          chunks[k] := chunks[k - 1];
        }
      }
      chunks[indexBefore] := c;
      count := count + 1;
      assert Contents()[..indexBefore] == old(Contents())[..indexBefore];
      assert Contents()[indexBefore + 1..] == old(Contents())[indexBefore..];
    }

    // Binary search for the first entry at or above the chunk's offset.
    method FindInsertPosition(c: Chunk) returns (first: nat)
      requires Shape() && Separated(Contents())
      ensures first == LowerBound(Contents(), c.offset, 0)
    {
      first := 0;
      var n := count;
      while 0 < n
        invariant first + n <= count
        invariant forall k :: 0 <= k < first ==> Contents()[k].offset < c.offset
        invariant first + n < count ==> c.offset <= Contents()[first + n].offset
      {
        var step := n / 2;
        var i := first + step;
        if chunks[i].offset < c.offset {
          assert forall k :: 0 <= k < i ==> Contents()[k].Before(Contents()[i]);
          first := i + 1;
          n := n - (step + 1);
        } else {
          n := step;
        }
      }
    }

    method CombinePrevious(i: nat, c: Chunk) returns (combined: bool)
      requires Shape() && i <= count && Addable(c)
      requires 0 < i ==> Contents()[i - 1].End() <= U32_MAX && Contents()[i - 1].offset < c.offset
      modifies chunks
      ensures Shape()
      ensures combined <==> 0 < i && c.offset <= old(Contents())[i - 1].End()
      ensures Contents() == if combined then IntoPrevious(old(Contents()), i, c) else old(Contents())
    {
      combined := false;
      if 0 < i {
        var chunkEnd: uint32 := c.offset + c.size;
        var prev := chunks[i - 1];
        var prevEnd: uint32 := prev.offset + prev.size;
        if c.offset <= prevEnd {
          if prevEnd < chunkEnd {
            var size: uint32 := chunkEnd - prev.offset;
            chunks[i - 1] := prev.(size := size);
          }
          combined := true;
        }
      }
    }

    // The loop of CombineNext: the first entry from `i` on that starts beyond the range.
    method SkipTouching(i: nat, chunkEnd: nat) returns (j: nat)
      requires Shape() && i <= count
      ensures j == FirstBeyond(Contents(), chunkEnd, i)
    {
      j := i;
      while j < count
        invariant i <= j <= count
        invariant forall k :: i <= k < j ==> Contents()[k].offset <= chunkEnd
      {
        if chunkEnd < chunks[j].offset {
          break;
        }
        j := j + 1;
      }
    }

    method CombineNext(i: nat, c: Chunk) returns (combined: bool)
      requires Shape() && i <= count && Addable(c)
      requires forall k :: 0 <= k < count ==> Contents()[k].End() <= U32_MAX
      modifies this, chunks
      ensures Shape()
      ensures combined <==> i < FirstBeyond(old(Contents()), c.End(), i)
      ensures Contents() == if combined then OverNext(old(Contents()), i, c) else old(Contents())
    {
      hide FirstBeyond;
      ghost var was := Contents();
      var chunkEnd: uint32 := c.offset + c.size;
      var combinedI := SkipTouching(i, chunkEnd);
      combined := false;
      if i != combinedI {
        var lastEnd: uint32 := chunks[combinedI - 1].offset + chunks[combinedI - 1].size;
        var end: uint32 := if chunkEnd < lastEnd then lastEnd else chunkEnd;
        var size: uint32 := end - c.offset;
        Absorb(i, combinedI, Chunk(c.offset, size));
        assert Chunk(c.offset, size) == Span(c.offset, end);
        combined := true;
      }
    }

    // One entry in place of those from `i` to `j`.
    method Absorb(i: nat, j: nat, x: Chunk)
      requires Shape() && i < j <= count
      modifies this, chunks
      ensures Shape() && Contents() == old(Contents())[..i] + [x] + old(Contents())[j..]
    {
      ghost var was := Contents();
      chunks[i] := x;
      assert Contents() == was[i := x];
      SpliceOne(was, i, j, x);
      EraseRange(i + 1, j);
    }

    method FindSmallestSize() returns (smallest: nat)
      requires Shape()
      ensures smallest == if Contents() == [] then 0 else FirstSmallest(Contents())
    {
      smallest := 0;
      var i := 1;
      while i < count
        invariant 1 <= i && (count == 0 || i <= count)
        invariant smallest < i && (count == 0 ==> smallest == 0)
        invariant forall k :: 0 <= k < i && k < count ==> Contents()[smallest].size <= Contents()[k].size
        invariant forall k :: 0 <= k < smallest ==> Contents()[smallest].size < Contents()[k].size
      {
        if chunks[i].size < chunks[smallest].size {
          smallest := i;
        }
        i := i + 1;
      }
    }

    // The list is full: make room for the chunk if the first smallest entry is smaller.
    method ReplaceSmallest(c: Chunk)
      requires Shape() && 0 < count && Separated(Contents())
      modifies this, chunks
      ensures Shape()
      ensures var s := old(Contents());
              var k := FirstSmallest(s);
              Contents() == if s[k].size < c.size then InsertSorted(EraseAt(s, k), c) else s
    {
      ghost var was := Contents();
      var k := FindSmallestSize();
      if chunks[k].size < c.size {
        EraseSeparated(was, k);
        EraseChunk(k);
        var at := FindInsertPosition(c);
        InsertChunk(at, c);
      }
    }

    method Insert(i: nat, c: Chunk)
      requires Valid() && Addable(c) && i == LowerBound(Contents(), c.offset, 0)
      modifies this, chunks
      ensures Valid() && Contents() == Add(maxChunks, old(Contents()), c)
    {
      hide Separated, AddMeaning, Add, OverNext, IntoPrevious, Classify, Covers, EraseAt, InsertAt, InsertSorted;
      ghost var was := Contents();
      AddKeepsInvariant(maxChunks, was, c);
      AddSteps(maxChunks, was, c);
      var n := CombineNext(i, c);
      if n {
        OverNextAddable(was, i, c);
        var combined := CombinePrevious(i, chunks[i]);
        if combined {
          EraseChunk(i);
        }
      } else {
        var combined := CombinePrevious(i, c);
        if combined {
          assert Contents() == IntoPrevious(was, i, c);
        } else if count < maxChunks {
          InsertChunk(i, c);
        } else {
          ReplaceSmallest(c);
        }
      }
    }

    // Replaces CF_ChunkListAdd; the precondition is the source's two assertions.
    method ListAdd(offset: uint32, size: uint32)
      requires Valid() && Addable(Chunk(offset, size))
      modifies this, chunks
      ensures Valid() && Contents() == Add(maxChunks, old(Contents()), Chunk(offset, size))
    {
      var c := Chunk(offset, size);
      var i := FindInsertPosition(c);
      Insert(i, c);
    }

    method RemoveFirst(size: nat)
      requires Valid() && 0 < count
      modifies this, chunks
      ensures Valid() && Contents() == RemoveFromFirst(old(Contents()), size)
    {
      ghost var was := Contents();
      RemoveFromFirstFacts(was, size);
      EndsBelow(was, U32_MAX);
      EndsBelow(RemoveFromFirst(was, size), U32_MAX);
      var n := if chunks[0].size < size then chunks[0].size else size;
      chunks[0] := chunks[0].(size := chunks[0].size - n);
      if chunks[0].size == 0 {
        EraseChunk(0);
      } else {
        chunks[0] := chunks[0].(offset := chunks[0].offset + n);
      }
    }

    method GetFirstChunk() returns (found: bool, c: Chunk)
      requires Valid()
      ensures found <==> Contents() != []
      ensures found ==> c == Contents()[0]
    {
      found := 0 < count;
      c := if found then chunks[0] else Chunk(0, 0);
    }

    // The gaps handed to the callback, in order; the source returns their number.
    method ComputeGaps(maxGaps: nat, total: uint32, start: uint32) returns (gaps: seq<Chunk>)
      requires Valid() && start <= total
      ensures gaps == Gaps.Reported(Contents(), maxGaps, total, start)
    {
      hide Separated, Gaps.LoopGaps;
      if start == total {
        gaps := [];
      } else if count == 0 {
        gaps := [Chunk(0, total)];
      } else {
        gaps := [];
        if start < chunks[0].offset {
          gaps := [Chunk(start, chunks[0].offset - start)];
        }
        gaps := WalkEntries(gaps, maxGaps, total, start);
      }
    }

    // The loop of ComputeGaps over the entries.
    method WalkEntries(before: seq<Chunk>, maxGaps: nat, total: uint32, start: uint32) returns (gaps: seq<Chunk>)
      requires Valid() && start < total && 0 < count
      ensures var budget := if maxGaps < |before| then 0 else maxGaps - |before|;
              gaps == before + Gaps.LoopGaps(Contents(), 0, budget, total, start)
    {
      gaps := before;
      ghost var s := Contents();
      var i := 0;
      ghost var budget := if maxGaps < |gaps| then 0 else maxGaps - |gaps|;
      ghost var rest := Gaps.LoopGaps(s, 0, budget, total, start);
      ghost var reported := gaps + rest;
      hide Separated, Gaps.LoopGaps;
      while |gaps| < maxGaps && i < count
        invariant i <= count && reported == gaps + rest
        invariant budget == if maxGaps < |gaps| then 0 else maxGaps - |gaps|
        invariant rest == Gaps.LoopGaps(s, i, budget, total, start)
      {
        Gaps.LoopStep(s, i, budget, total, start);
        var nextOff := if i == count - 1 then total else chunks[i + 1].offset;
        var gapStart: uint32 := chunks[i].offset + chunks[i].size;
        var from := if start < gapStart then gapStart else start;
        // Unsigned 32-bit difference; it only rolls over where it is not used.
        var size := (nextOff - from) % 0x1_0000_0000;
        if total <= gapStart {
          break;
        } else if start < nextOff {
          Next32(s, i);
          var gap := Chunk(from, size);
          assert gap == Span(from, nextOff);
          rest, budget := Gaps.LoopGaps(s, i + 1, budget - 1, total, start), budget - 1;
          assert gaps + ([gap] + rest) == (gaps + [gap]) + rest;
          gaps := gaps + [gap];
        }
        i := i + 1;
      }
      Gaps.LoopDone(s, i, budget, total, start);
    }
  }

  // A list as it is handed out, entries and all.
  ghost function GivenOut(list: ChunkList?): (r: Option<Handed>)
    requires list != null ==> list.Valid()
    reads list, if list == null then {} else {list.chunks}
    ensures Usable(r)
  {
    if list == null then None else Some(Handed(list.maxChunks, list.Contents()))
  }

  lemma Next32(s: seq<Chunk>, i: nat)
    requires i < |s| && forall k :: 0 <= k < |s| ==> s[k].End() <= U32_MAX
    ensures i < |s| - 1 ==> s[i + 1].offset <= U32_MAX
  {
    if i < |s| - 1 {
      assert s[i + 1].End() <= U32_MAX;
    }
  }

  // The entries i..FirstBeyond replaced by one that starts where the range does.
  ghost function OverNext(s: seq<Chunk>, i: nat, c: Chunk): (r: seq<Chunk>)
    requires i <= |s| && i < FirstBeyond(s, c.End(), i)
    ensures i < |r| && forall k :: 0 <= k < i ==> r[k] == s[k]
    ensures r[i] == Span(c.offset, Max(s[FirstBeyond(s, c.End(), i) - 1].End(), c.End()))
  {
    var j := FirstBeyond(s, c.End(), i);
    s[..i] + [Span(c.offset, Max(s[j - 1].End(), c.End()))] + s[j..]
  }

  lemma SpliceOne(s: seq<Chunk>, i: nat, j: nat, x: Chunk)
    requires i < j <= |s|
    ensures s[i := x][..i + 1] + s[i := x][j..] == s[..i] + [x] + s[j..]
    ensures j == i + 1 ==> s[i := x] == s[..i] + [x] + s[j..]
  {
  }

  // The previous entry stretched over the range.
  ghost function IntoPrevious(s: seq<Chunk>, i: nat, c: Chunk): seq<Chunk>
    requires 0 < i <= |s|
  {
    s[i - 1 := Span(s[i - 1].offset, Max(s[i - 1].End(), c.End()))]
  }

  lemma FuseEnds(s: seq<Chunk>, p: nat, j: nat, c: Chunk)
    requires p < j <= |s|
    ensures Fuse(s[p..j], c) == Span(Min(s[p].offset, c.offset), Max(s[j - 1].End(), c.End()))
  {
    assert s[p..j][0] == s[p] && s[p..j][j - p - 1] == s[j - 1];
  }

  ghost predicate LeftTouch(s: seq<Chunk>, c: Chunk) {
    var i := LowerBound(s, c.offset, 0);
    0 < i && c.offset <= s[i - 1].End()
  }

  // A merge is what is left after absorbing the following entries, then the previous one.
  lemma CombinedNext(s: seq<Chunk>, c: Chunk)
    requires Separated(s) && 0 < c.size
    requires LowerBound(s, c.offset, 0) < Beyond(s, c)
    ensures var i := LowerBound(s, c.offset, 0);
            var after := OverNext(s, i, c);
            && (LeftTouch(s, c) ==> Merge(s, c) == EraseAt(IntoPrevious(after, i, after[i]), i))
            && (!LeftTouch(s, c) ==> Merge(s, c) == after)
  {
    var i, j, p := LowerBound(s, c.offset, 0), Beyond(s, c), First(s, c);
    FuseEnds(s, p, j, c);
    if LeftTouch(s, c) {
      assert s[p].Before(s[j - 1]);
      EraseShape(s, p, j, Span(c.offset, Max(s[j - 1].End(), c.End())), Fuse(s[p..j], c));
    }
  }

  lemma EraseShape(s: seq<Chunk>, p: nat, j: nat, next: Chunk, m: Chunk)
    requires p + 1 < j <= |s|
    ensures EraseAt((s[..p + 1] + [next] + s[j..])[p := m], p + 1) == s[..p] + [m] + s[j..]
  {
  }

  lemma CombinedPrevious(s: seq<Chunk>, c: Chunk)
    requires Separated(s) && 0 < c.size
    requires LowerBound(s, c.offset, 0) == Beyond(s, c) && First(s, c) < Beyond(s, c)
    ensures var i := LowerBound(s, c.offset, 0);
            0 < i && Merge(s, c) == IntoPrevious(s, i, c)
  {
    var i := LowerBound(s, c.offset, 0);
    FuseEnds(s, i - 1, i, c);
  }

  // An add, spelled out by the steps the code takes.
  lemma AddSteps(cap: nat, s: seq<Chunk>, c: Chunk)
    requires 0 < cap && WellFormed(cap, s) && Addable(c)
    ensures var i := LowerBound(s, c.offset, 0);
            if i < FirstBeyond(s, c.End(), i) then
              var after := OverNext(s, i, c);
              && (LeftTouch(s, c) ==> Add(cap, s, c) == EraseAt(IntoPrevious(after, i, after[i]), i))
              && (!LeftTouch(s, c) ==> Add(cap, s, c) == after)
            else
              && (LeftTouch(s, c) ==> Add(cap, s, c) == IntoPrevious(s, i, c))
              && (!LeftTouch(s, c) && |s| < cap ==> Add(cap, s, c) == InsertAt(s, i, c))
              && (!LeftTouch(s, c) && |s| == cap ==>
                    var k := FirstSmallest(s);
                    Add(cap, s, c) == if s[k].size < c.size then InsertSorted(EraseAt(s, k), c) else s)
  {
    hide Separated, Merge, OverNext, IntoPrevious, InsertAt, EraseAt, FirstSmallest;
    var i := LowerBound(s, c.offset, 0);
    if i < Beyond(s, c) {
      CombinedNext(s, c);
      assert Classify(cap, s, c) == Merged;
    } else if First(s, c) < Beyond(s, c) {
      CombinedPrevious(s, c);
      assert Classify(cap, s, c) == Merged;
    } else if |s| < cap {
      assert Classify(cap, s, c) == Inserted;
    }
  }

  lemma OverNextAddable(s: seq<Chunk>, i: nat, c: Chunk)
    requires Addable(c) && i <= |s| && i < FirstBeyond(s, c.End(), i)
    requires forall k :: 0 <= k < |s| ==> s[k].End() <= U32_MAX
    ensures Addable(OverNext(s, i, c)[i])
  {
  }
}
