/**
 The chunk list seen as a value: what one `CF_ChunkListAdd` does to the sequence
 of entries, and what that means for the set of file bytes the list remembers.
 */
module ChunkSpec {
  import opened Cfdp


  const U32_MAX: nat := 0xFFFF_FFFF

  datatype Chunk = Chunk(offset: nat, size: nat) {
    function End(): nat { offset + size }

    predicate Has(x: int) { offset <= x < End() }

    // The other range begins at least one byte behind this one.
    predicate Before(other: Chunk) { End() < other.offset }

    // The two ranges share a byte or are adjacent.
    predicate Touches(other: Chunk) { offset <= other.End() && other.offset <= End() }
  }

  // The chunk from `lo` up to `hi`.
  function Span(lo: nat, hi: nat): Chunk { Chunk(lo, if lo < hi then hi - lo else 0) }

  // What the two assertions in the source demand of a range: not empty, and no
  // roll-over of the 32-bit end offset.
  predicate Addable(c: Chunk) { 0 < c.size && c.End() <= U32_MAX }

  // Entries are non-empty, in ascending order, and between two of them at least
  // one byte is missing.
  ghost predicate Separated(s: seq<Chunk>) {
    && (forall i :: 0 <= i < |s| ==> 0 < s[i].size)
    && (forall i, j {:trigger s[i].Before(s[j])} :: 0 <= i < j < |s| ==> s[i].Before(s[j]))
  }

  ghost predicate WellFormed(cap: nat, s: seq<Chunk>) {
    && |s| <= cap
    && Separated(s)
    && (forall i :: 0 <= i < |s| ==> s[i].End() <= U32_MAX)
  }

  // A chunk list as a transaction is handed it: the room it has, and the entries its
  // last holder left in it. Nothing empties a list when it changes hands.
  datatype Handed = Handed(cap: nat, chunks: seq<Chunk>) {
    ghost predicate Proper() { 0 < cap && WellFormed(cap, chunks) }
  }

  ghost predicate Usable(list: Option<Handed>) { list.Some? ==> list.value.Proper() }

  // A transaction that got none never uses it.
  function Got(list: Option<Handed>): Handed { if list.Some? then list.value else Handed(1, []) }

  lemma GotProper(list: Option<Handed>)
    requires Usable(list)
    ensures Got(list).Proper()
  {
  }

  ghost predicate Covers(s: seq<Chunk>, x: int) {
    exists i :: 0 <= i < |s| && s[i].Has(x)
  }

  // Number of bytes the list remembers.
  function Total(s: seq<Chunk>): nat {
    if s == [] then 0 else s[0].size + Total(s[1..])
  }

  // ---------- positions ----------

  // Index of the first entry at or after `i` that starts at or above `off`.
  function LowerBound(s: seq<Chunk>, off: nat, i: nat): (r: nat)
    requires i <= |s|
    ensures i <= r <= |s|
    ensures forall k :: i <= k < r ==> s[k].offset < off
    ensures r < |s| ==> off <= s[r].offset
    decreases |s| - i
  {
    if i < |s| && s[i].offset < off then LowerBound(s, off, i + 1) else i
  }

  // Index of the first entry at or after `i` that begins strictly above `end`.
  function FirstBeyond(s: seq<Chunk>, end: nat, i: nat): (r: nat)
    requires i <= |s|
    ensures i <= r <= |s|
    ensures forall k :: i <= k < r ==> s[k].offset <= end
    ensures r < |s| ==> end < s[r].offset
    decreases |s| - i
  {
    if i < |s| && s[i].offset <= end then FirstBeyond(s, end, i + 1) else i
  }

  // The first entry whose size no other entry undercuts.
  function FirstSmallest(s: seq<Chunk>): (r: nat)
    requires s != []
    ensures r < |s|
    ensures forall k :: 0 <= k < |s| ==> s[r].size <= s[k].size
    ensures forall k :: 0 <= k < r ==> s[r].size < s[k].size
  {
    if |s| == 1 then 0
    else
      var m := FirstSmallest(s[..|s| - 1]);
      if s[|s| - 1].size < s[m].size then |s| - 1 else m
  }

  function Max(a: nat, b: nat): nat { if a < b then b else a }

  function Min(a: nat, b: nat): nat { if a < b then a else b }

  function EraseAt(s: seq<Chunk>, k: nat): seq<Chunk>
    requires k < |s|
  {
    s[..k] + s[k + 1..]
  }

  function InsertAt(s: seq<Chunk>, k: nat, c: Chunk): seq<Chunk>
    requires k <= |s|
  {
    s[..k] + [c] + s[k..]
  }

  // ---------- one add ----------

  // Why an add ended as it did. The last two lose bytes.
  datatype Outcome = Merged | Inserted | Evicted(index: nat) | Dropped

  // The entries that overlap the range or are adjacent to it are s[First..Beyond].
  function First(s: seq<Chunk>, c: Chunk): (p: nat)
    ensures p <= LowerBound(s, c.offset, 0) <= |s|
  {
    var i := LowerBound(s, c.offset, 0);
    if 0 < i && c.offset <= s[i - 1].End() then i - 1 else i
  }

  function Beyond(s: seq<Chunk>, c: Chunk): (j: nat)
    ensures LowerBound(s, c.offset, 0) <= j <= |s|
  {
    FirstBeyond(s, c.End(), LowerBound(s, c.offset, 0))
  }

  function Classify(cap: nat, s: seq<Chunk>, c: Chunk): (o: Outcome)
    requires 0 < cap
    ensures o.Evicted? ==> o.index < |s|
  {
    if First(s, c) < Beyond(s, c) then Merged
    else if |s| < cap then Inserted
    else
      var k := FirstSmallest(s);
      if s[k].size < c.size then Evicted(k) else Dropped
  }

  // One entry spanning the range and the touching entries.
  function Fuse(mid: seq<Chunk>, c: Chunk): Chunk
    requires mid != []
  {
    Span(Min(mid[0].offset, c.offset), Max(mid[|mid| - 1].End(), c.End()))
  }

  function Merge(s: seq<Chunk>, c: Chunk): seq<Chunk>
    requires First(s, c) < Beyond(s, c)
  {
    var p, j := First(s, c), Beyond(s, c);
    s[..p] + [Fuse(s[p..j], c)] + s[j..]
  }

  function InsertSorted(s: seq<Chunk>, c: Chunk): seq<Chunk> {
    InsertAt(s, LowerBound(s, c.offset, 0), c)
  }

  function Add(cap: nat, s: seq<Chunk>, c: Chunk): seq<Chunk>
    requires 0 < cap
  {
    match Classify(cap, s, c)
    case Merged => Merge(s, c)
    case Inserted => InsertSorted(s, c)
    case Evicted(k) => InsertSorted(EraseAt(s, k), c)
    case Dropped => s
  }

  // ---------- concatenation ----------

  lemma TotalConcat(a: seq<Chunk>, b: seq<Chunk>)
    ensures Total(a + b) == Total(a) + Total(b)
  {
    if a == [] {
      assert a + b == b;
    } else {
      assert (a + b)[1..] == a[1..] + b;
      TotalConcat(a[1..], b);
    }
  }

  lemma CoversConcat(a: seq<Chunk>, b: seq<Chunk>, x: int)
    ensures Covers(a + b, x) <==> Covers(a, x) || Covers(b, x)
  {
    if k :| 0 <= k < |a| && a[k].Has(x) {
      assert (a + b)[k].Has(x);
    }
    if k :| 0 <= k < |b| && b[k].Has(x) {
      assert (a + b)[|a| + k].Has(x);
    }
  }

  lemma SeparatedConcat(a: seq<Chunk>, b: seq<Chunk>)
    requires Separated(a) && Separated(b)
    requires a == [] || b == [] || a[|a| - 1].End() < b[0].offset
    ensures Separated(a + b)
  {
    forall i, j | 0 <= i < j < |a + b|
      ensures (a + b)[i].Before((a + b)[j])
    {
      if i < |a| <= j {
        LastEndsLast(a, i);
        FirstStartsFirst(b, j - |a|);
      }
    }
  }

  lemma LastEndsLast(a: seq<Chunk>, i: nat)
    requires Separated(a) && i < |a|
    ensures a[i].End() <= a[|a| - 1].End()
  {
    assert i < |a| - 1 ==> a[i].Before(a[|a| - 1]);
  }

  lemma FirstStartsFirst(a: seq<Chunk>, i: nat)
    requires Separated(a) && i < |a|
    ensures a[0].offset <= a[i].offset
  {
    assert 0 < i ==> a[0].Before(a[i]);
  }

  lemma SeparatedSlice(s: seq<Chunk>, lo: nat, hi: nat)
    requires Separated(s) && lo <= hi <= |s|
    ensures Separated(s[lo..hi])
  {
  }

  // s[..p] + s[p..j] + s[j..], and what follows for the remembered bytes.
  lemma SplitCovers(s: seq<Chunk>, p: nat, j: nat, x: int)
    requires p <= j <= |s|
    ensures Covers(s, x) <==> Covers(s[..p], x) || Covers(s[p..j], x) || Covers(s[j..], x)
  {
    assert s == s[..p] + s[p..j] + s[j..];
    CoversConcat(s[..p] + s[p..j], s[j..], x);
    CoversConcat(s[..p], s[p..j], x);
  }

  lemma SpliceCovers(s: seq<Chunk>, p: nat, j: nat, c: Chunk, x: int)
    requires p <= j <= |s|
    ensures Covers(s[..p] + [c] + s[j..], x) <==> Covers(s[..p], x) || c.Has(x) || Covers(s[j..], x)
  {
    CoversConcat(s[..p] + [c], s[j..], x);
    CoversConcat(s[..p], [c], x);
    assert Covers([c], x) <==> c.Has(x) by {
      if c.Has(x) {
        assert [c][0].Has(x);
      }
    }
  }

  lemma SpliceSeparated(s: seq<Chunk>, p: nat, j: nat, c: Chunk)
    requires Separated(s) && p <= j <= |s| && 0 < c.size
    requires 0 < p ==> s[p - 1].End() < c.offset
    requires j < |s| ==> c.End() < s[j].offset
    ensures Separated(s[..p] + [c] + s[j..])
  {
    SeparatedSlice(s, 0, p);
    SeparatedSlice(s, j, |s|);
    SeparatedConcat(s[..p], [c]);
    SeparatedConcat(s[..p] + [c], s[j..]);
  }

  lemma SpliceTotal(s: seq<Chunk>, p: nat, j: nat, c: Chunk)
    requires p <= j <= |s|
    ensures Total(s[..p] + [c] + s[j..]) == Total(s) - Total(s[p..j]) + c.size
  {
    hide Total;
    assert s == s[..p] + s[p..j] + s[j..];
    TotalConcat3(s[..p], s[p..j], s[j..]);
    TotalConcat3(s[..p], [c], s[j..]);
    TotalOne(c);
  }

  lemma TotalOne(c: Chunk)
    ensures Total([c]) == c.size && Total([]) == 0
  {
    assert [c][1..] == [];
  }

  lemma TotalConcat3(a: seq<Chunk>, m: seq<Chunk>, b: seq<Chunk>)
    ensures Total(a + m + b) == Total(a) + Total(m) + Total(b)
  {
    hide Total;
    TotalConcat(a + m, b);
    TotalConcat(a, m);
  }

  // ---------- what an add means ----------

  // Exactly the entries s[First..Beyond] touch the range.
  lemma TouchingEntries(s: seq<Chunk>, c: Chunk, k: nat)
    requires Separated(s) && 0 < c.size && k < |s|
    ensures s[k].Touches(c) <==> First(s, c) <= k < Beyond(s, c)
  {
    var i := LowerBound(s, c.offset, 0);
    if k + 1 < i {
      assert s[k].Before(s[i - 1]);
    }
    if i < |s| && i <= k {
      FirstStartsFirst(s[i..], k - i);
      SeparatedSlice(s, i, |s|);
    }
    if Beyond(s, c) < k {
      assert s[Beyond(s, c)].Before(s[k]);
    }
  }

  lemma FuseFacts(mid: seq<Chunk>, c: Chunk, x: int)
    requires mid != [] && Separated(mid) && 0 < c.size
    requires forall k :: 0 <= k < |mid| ==> mid[k].Touches(c)
    ensures Fuse(mid, c).Has(x) <==> Covers(mid, x) || c.Has(x)
  {
    var n := |mid| - 1;
    assert mid[0].Touches(c) && mid[n].Touches(c);
    if k :| 0 <= k < |mid| && mid[k].Has(x) {
      LastEndsLast(mid, k);
      FirstStartsFirst(mid, k);
    }
    if Fuse(mid, c).Has(x) && !c.Has(x) {
      assert mid[0].Has(x) || mid[n].Has(x);
    }
  }

  lemma MergeFacts(s: seq<Chunk>, c: Chunk)
    requires Separated(s) && 0 < c.size && First(s, c) < Beyond(s, c)
    ensures Separated(Merge(s, c))
    ensures forall x :: Covers(Merge(s, c), x) <==> Covers(s, x) || c.Has(x)
  {
    var p, j := First(s, c), Beyond(s, c);
    var mid := s[p..j];
    var f := Fuse(mid, c);
    SeparatedSlice(s, p, j);
    forall k | 0 <= k < |mid| ensures mid[k].Touches(c) {
      TouchingEntries(s, c, p + k);
    }
    forall x ensures Covers(Merge(s, c), x) <==> Covers(s, x) || c.Has(x) {
      FuseFacts(mid, c, x);
      SplitCovers(s, p, j, x);
      SpliceCovers(s, p, j, f, x);
    }
    MergeBounds(s, c);
    SpliceSeparated(s, p, j, f);
  }

  lemma MergeBounds(s: seq<Chunk>, c: Chunk)
    requires Separated(s) && 0 < c.size && First(s, c) < Beyond(s, c)
    ensures var p, j := First(s, c), Beyond(s, c);
            var f := Fuse(s[p..j], c);
            0 < f.size && (0 < p ==> s[p - 1].End() < f.offset) && (j < |s| ==> f.End() < s[j].offset)
  {
    var p, j := First(s, c), Beyond(s, c);
    TouchingEntries(s, c, p);
    TouchingEntries(s, c, j - 1);
    if 0 < p {
      TouchingEntries(s, c, p - 1);
      assert s[p - 1].Before(s[p]) && s[p - 1].offset < c.offset;
    }
    if j < |s| {
      assert s[j - 1].Before(s[j]);
    }
  }

  lemma InsertFacts(s: seq<Chunk>, c: Chunk)
    requires Separated(s) && 0 < c.size
    requires forall k :: 0 <= k < |s| ==> !s[k].Touches(c)
    ensures Separated(InsertSorted(s, c))
    ensures Total(InsertSorted(s, c)) == Total(s) + c.size
    ensures forall x :: Covers(InsertSorted(s, c), x) <==> Covers(s, x) || c.Has(x)
  {
    hide Total, Separated;
    var i := LowerBound(s, c.offset, 0);
    assert 0 < i ==> !s[i - 1].Touches(c);
    assert i < |s| ==> !s[i].Touches(c);
    SpliceSeparated(s, i, i, c);
    SpliceTotal(s, i, i, c);
    TotalOne(c);
    assert s[i..i] == [];
    forall x ensures Covers(InsertSorted(s, c), x) <==> Covers(s, x) || c.Has(x) {
      SplitCovers(s, i, i, x);
      SpliceCovers(s, i, i, c, x);
      assert !Covers([], x);
    }
  }

  lemma EraseTotal(s: seq<Chunk>, k: nat)
    requires k < |s|
    ensures Total(EraseAt(s, k)) == Total(s) - s[k].size
  {
    hide Total;
    var a, b := s[..k], s[k + 1..];
    assert s == a + [s[k]] + b;
    TotalConcat3(a, [s[k]], b);
    TotalConcat(a, b);
    TotalOne(s[k]);
  }

  lemma EraseSeparated(s: seq<Chunk>, k: nat)
    requires Separated(s) && k < |s|
    ensures Separated(EraseAt(s, k))
  {
    SeparatedSlice(s, 0, k);
    SeparatedSlice(s, k + 1, |s|);
    assert 0 < k < |s| - 1 ==> s[k - 1].Before(s[k + 1]);
    SeparatedConcat(s[..k], s[k + 1..]);
  }

  lemma EraseFacts(s: seq<Chunk>, k: nat)
    requires Separated(s) && k < |s|
    ensures Separated(EraseAt(s, k))
    ensures Total(EraseAt(s, k)) == Total(s) - s[k].size
    ensures forall x :: Covers(EraseAt(s, k), x) <==> Covers(s, x) && !s[k].Has(x)
  {
    EraseTotal(s, k);
    EraseSeparated(s, k);
    forall x ensures Covers(EraseAt(s, k), x) <==> Covers(s, x) && !s[k].Has(x) {
      EraseCovers(s, k, x);
    }
  }

  lemma EraseCovers(s: seq<Chunk>, k: nat, x: int)
    requires Separated(s) && k < |s|
    ensures Covers(EraseAt(s, k), x) <==> Covers(s, x) && !s[k].Has(x)
  {
    var t := EraseAt(s, k);
    if n :| 0 <= n < |s| && s[n].Has(x) && n != k {
      assert t[if n < k then n else n - 1].Has(x);
    }
    if n :| 0 <= n < |t| && t[n].Has(x) {
      var m := if n < k then n else n + 1;
      assert s[m].Has(x);
      if m < k {
        assert s[m].Before(s[k]);
      } else {
        assert s[k].Before(s[m]);
      }
    }
  }

  // The bytes remembered after an add, in each of the four outcomes.
  ghost predicate AddMeaning(o: Outcome, s: seq<Chunk>, c: Chunk, t: seq<Chunk>) {
    match o
    case Merged => forall x :: Covers(t, x) <==> Covers(s, x) || c.Has(x)
    case Inserted => forall x :: Covers(t, x) <==> Covers(s, x) || c.Has(x)
    case Evicted(k) =>
      k < |s| && s[k].size < c.size &&
      (forall n :: 0 <= n < |s| ==> s[k].size <= s[n].size) &&
      forall x :: Covers(t, x) <==> (Covers(s, x) && !s[k].Has(x)) || c.Has(x)
    case Dropped => t == s && forall n :: 0 <= n < |s| ==> c.size <= s[n].size
  }

  // Entries end at or below `lim` exactly when every remembered byte is below it.
  lemma EndsBelow(s: seq<Chunk>, lim: nat)
    requires Separated(s)
    ensures (forall k :: 0 <= k < |s| ==> s[k].End() <= lim) <==> (forall x :: Covers(s, x) ==> x < lim)
  {
    if forall x :: Covers(s, x) ==> x < lim {
      forall k | 0 <= k < |s| ensures s[k].End() <= lim {
        assert s[k].Has(s[k].End() - 1);
        assert Covers(s, s[k].End() - 1);
      }
    }
  }

  lemma AddMeans(cap: nat, s: seq<Chunk>, c: Chunk)
    requires 0 < cap && |s| <= cap && Separated(s) && 0 < c.size
    ensures Separated(Add(cap, s, c)) && |Add(cap, s, c)| <= cap
    ensures AddMeaning(Classify(cap, s, c), s, c, Add(cap, s, c))
  {
    WhenMerged(s, c);
    match Classify(cap, s, c) {
      case Merged =>
        MergeFacts(s, c);
      case Inserted =>
        InsertFacts(s, c);
      case Evicted(k) =>
        EvictFacts(s, k, c);
      case Dropped =>
    }
  }

  // Every add keeps the list sorted, separated, within capacity and within 32
  // bits, and changes the remembered bytes as its outcome says. Bytes are lost
  // exactly when the list is full and no entry touches the new range.
  lemma AddKeepsInvariant(cap: nat, s: seq<Chunk>, c: Chunk)
    requires 0 < cap && WellFormed(cap, s) && Addable(c)
    ensures WellFormed(cap, Add(cap, s, c))
    ensures AddMeaning(Classify(cap, s, c), s, c, Add(cap, s, c))
    ensures Classify(cap, s, c).Evicted? || Classify(cap, s, c).Dropped?
       <==> |s| == cap && forall k :: 0 <= k < |s| ==> !s[k].Touches(c)
  {
    WhenMerged(s, c);
    AddMeans(cap, s, c);
    AddStaysBelow(cap, s, c, U32_MAX);
  }

  lemma AddStaysBelow(cap: nat, s: seq<Chunk>, c: Chunk, lim: nat)
    requires 0 < cap && |s| <= cap && Separated(s) && 0 < c.size && c.End() <= lim
    requires forall k :: 0 <= k < |s| ==> s[k].End() <= lim
    ensures forall k :: 0 <= k < |Add(cap, s, c)| ==> Add(cap, s, c)[k].End() <= lim
  {
    AddMeans(cap, s, c);
    EndsBelow(s, lim);
    EndsBelow(Add(cap, s, c), lim);
  }

  lemma EvictFacts(s: seq<Chunk>, k: nat, c: Chunk)
    requires Separated(s) && 0 < c.size && k < |s|
    requires forall n :: 0 <= n < |s| ==> !s[n].Touches(c)
    ensures var t := InsertSorted(EraseAt(s, k), c);
            && Separated(t)
            && Total(t) == Total(s) - s[k].size + c.size
            && forall x :: Covers(t, x) <==> (Covers(s, x) && !s[k].Has(x)) || c.Has(x)
  {
    EraseFacts(s, k);
    EraseUntouched(s, k, c);
    InsertFacts(EraseAt(s, k), c);
  }

  lemma EraseUntouched(s: seq<Chunk>, k: nat, c: Chunk)
    requires k < |s| && forall n :: 0 <= n < |s| ==> !s[n].Touches(c)
    ensures forall n :: 0 <= n < |EraseAt(s, k)| ==> !EraseAt(s, k)[n].Touches(c)
  {
  }

  lemma WhenMerged(s: seq<Chunk>, c: Chunk)
    requires Separated(s) && 0 < c.size
    ensures First(s, c) < Beyond(s, c) <==> exists k :: 0 <= k < |s| && s[k].Touches(c)
  {
    if First(s, c) < Beyond(s, c) {
      TouchingEntries(s, c, First(s, c));
    }
    forall k | 0 <= k < |s| ensures s[k].Touches(c) <==> First(s, c) <= k < Beyond(s, c) {
      TouchingEntries(s, c, k);
    }
  }

  // ---------- no add loses ground ----------

  lemma TotalMonotone(s: seq<Chunk>, t: seq<Chunk>)
    requires Separated(s) && Separated(t)
    requires forall x :: Covers(s, x) ==> Covers(t, x)
    ensures Total(s) <= Total(t)
    ensures (exists x :: Covers(t, x) && !Covers(s, x)) ==> Total(s) < Total(t)
  {
    TotalIsCardinality(s);
    TotalIsCardinality(t);
    forall x | x in Bytes(s) ensures x in Bytes(t) {
      assert Covers(s, x);
    }
    SubsetSize(Bytes(s), Bytes(t));
    if x :| Covers(t, x) && !Covers(s, x) {
      SubsetSize(Bytes(s), Bytes(t) - {x});
    }
  }

  lemma SubsetSize(a: set<int>, b: set<int>)
    requires a <= b
    ensures |a| <= |b|
  {
    assert b == a + (b - a);
  }

  ghost function RangeSet(lo: nat, hi: nat): (r: set<int>)
    requires lo <= hi
    ensures forall x :: x in r <==> lo <= x < hi
    ensures |r| == hi - lo
    decreases hi - lo
  {
    if lo == hi then {} else RangeSet(lo + 1, hi) + {lo}
  }

  // The remembered bytes as a set.
  ghost function Bytes(s: seq<Chunk>): (r: set<int>)
    ensures forall x :: x in r <==> Covers(s, x)
  {
    if s == [] then {}
    else
      var r := RangeSet(s[0].offset, s[0].End()) + Bytes(s[1..]);
      assert forall x :: Covers(s, x) <==> s[0].Has(x) || Covers(s[1..], x) by {
        forall x ensures Covers(s, x) <==> s[0].Has(x) || Covers(s[1..], x) { HeadCovers(s, x); }
      }
      r
  }

  lemma HeadApart(s: seq<Chunk>, x: int)
    requires Separated(s) && s != []
    ensures !(s[0].Has(x) && Covers(s[1..], x))
  {
    if k :| 0 <= k < |s[1..]| && s[1..][k].Has(x) {
      assert s[0].Before(s[k + 1]);
    }
  }

  // The size counters of a separated list count its bytes.
  lemma {:induction false} TotalIsCardinality(s: seq<Chunk>)
    requires Separated(s)
    ensures Total(s) == |Bytes(s)|
  {
    if s != [] {
      SeparatedSlice(s, 1, |s|);
      TotalIsCardinality(s[1..]);
      BytesSplit(s);
      assert |RangeSet(s[0].offset, s[0].End())| == s[0].size;
    }
  }

  lemma BytesSplit(s: seq<Chunk>)
    requires Separated(s) && s != []
    ensures |Bytes(s)| == |RangeSet(s[0].offset, s[0].End())| + |Bytes(s[1..])|
  {
    var head, rest := RangeSet(s[0].offset, s[0].End()), Bytes(s[1..]);
    forall x | x in rest ensures x !in head {
      HeadApart(s, x);
    }
    forall x ensures x in Bytes(s) <==> x in head + rest {
      HeadCovers(s, x);
    }
    assert Bytes(s) == head + rest;
  }

  // An add either leaves the list exactly as it was, or the number of remembered
  // bytes strictly grows, even when an entry was evicted to make room.
  lemma AddNeverLosesGround(cap: nat, s: seq<Chunk>, c: Chunk)
    requires 0 < cap && WellFormed(cap, s) && Addable(c)
    ensures Total(s) <= Total(Add(cap, s, c))
    ensures Add(cap, s, c) == s || Total(s) < Total(Add(cap, s, c))
  {
    var t := Add(cap, s, c);
    AddKeepsInvariant(cap, s, c);
    match Classify(cap, s, c) {
      case Merged =>
        TotalMonotone(s, t);
        if forall x :: c.Has(x) ==> Covers(s, x) {
          MergeOfCoveredIsIdentity(s, c);
        } else {
          var x :| c.Has(x) && !Covers(s, x);
          assert Covers(t, x);
        }
      case Inserted =>
        WhenMerged(s, c);
        InsertFacts(s, c);
      case Evicted(k) =>
        WhenMerged(s, c);
        EvictFacts(s, k, c);
      case Dropped =>
    }
  }

  lemma MergeOfCoveredIsIdentity(s: seq<Chunk>, c: Chunk)
    requires Separated(s) && 0 < c.size
    requires forall x :: c.Has(x) ==> Covers(s, x)
    ensures First(s, c) < Beyond(s, c) && Merge(s, c) == s
  {
    var k := CoveredInOneEntry(s, c);
    TouchingEntries(s, c, k);
    if 0 < k {
      TouchingEntries(s, c, k - 1);
      assert s[k - 1].Before(s[k]);
    }
    if k + 1 < |s| {
      TouchingEntries(s, c, k + 1);
      assert s[k].Before(s[k + 1]);
    }
    assert First(s, c) == k && Beyond(s, c) == k + 1;
    assert s[k..k + 1] == [s[k]];
    assert Fuse(s[k..k + 1], c) == s[k];
  }

  // The byte right behind an entry is missing.
  lemma GapBehind(s: seq<Chunk>, k: nat)
    requires Separated(s) && k < |s|
    ensures !Covers(s, s[k].End())
  {
    forall n | 0 <= n < |s| ensures !s[n].Has(s[k].End()) {
      if n < k {
        assert s[n].Before(s[k]);
      } else if k < n {
        assert s[k].Before(s[n]);
      }
    }
  }

  // A contiguous range whose bytes are all remembered lies inside one entry.
  lemma CoveredInOneEntry(s: seq<Chunk>, c: Chunk) returns (k: nat)
    requires Separated(s) && 0 < c.size
    requires forall x :: c.Has(x) ==> Covers(s, x)
    ensures k < |s| && s[k].offset <= c.offset && c.End() <= s[k].End()
  {
    assert c.Has(c.offset);
    k :| 0 <= k < |s| && s[k].Has(c.offset);
    GapBehind(s, k);
    assert !c.Has(s[k].End());
  }

  // ---------- runs of adds ----------

  function AddAll(cap: nat, s: seq<Chunk>, cs: seq<Chunk>): seq<Chunk>
    requires 0 < cap
    decreases |cs|
  {
    if cs == [] then s else AddAll(cap, Add(cap, s, cs[0]), cs[1..])
  }

  // No add of the run was dropped or evicted another entry.
  predicate Lossless(cap: nat, s: seq<Chunk>, cs: seq<Chunk>)
    requires 0 < cap
    decreases |cs|
  {
    cs == [] ||
    (var o := Classify(cap, s, cs[0]);
     (o.Merged? || o.Inserted?) && Lossless(cap, Add(cap, s, cs[0]), cs[1..]))
  }

  ghost predicate InSome(cs: seq<Chunk>, x: int) {
    exists i :: 0 <= i < |cs| && cs[i].Has(x)
  }

  lemma InSomeHead(cs: seq<Chunk>, x: int)
    requires cs != []
    ensures InSome(cs, x) <==> cs[0].Has(x) || InSome(cs[1..], x)
  {
    if i :| 0 <= i < |cs[1..]| && cs[1..][i].Has(x) {
      assert cs[i + 1].Has(x);
    }
  }

  // After any run of adds the list is sound: it remembers nothing that was not
  // added, never forgets on balance, and is exact as long as nothing was lost.
  lemma {:induction false} RunRefinesSet(cap: nat, s: seq<Chunk>, cs: seq<Chunk>)
    requires 0 < cap && WellFormed(cap, s)
    requires forall i :: 0 <= i < |cs| ==> Addable(cs[i])
    ensures WellFormed(cap, AddAll(cap, s, cs))
    ensures Total(s) <= Total(AddAll(cap, s, cs))
    ensures forall x :: Covers(AddAll(cap, s, cs), x) ==> Covers(s, x) || InSome(cs, x)
    ensures Lossless(cap, s, cs) ==>
              forall x :: Covers(s, x) || InSome(cs, x) ==> Covers(AddAll(cap, s, cs), x)
    decreases |cs|
  {
    if cs != [] {
      AddKeepsInvariant(cap, s, cs[0]);
      AddNeverLosesGround(cap, s, cs[0]);
      RunRefinesSet(cap, Add(cap, s, cs[0]), cs[1..]);
      forall x ensures InSome(cs, x) <==> cs[0].Has(x) || InSome(cs[1..], x) {
        InSomeHead(cs, x);
      }
    }
  }

  // ---------- taking bytes off the front ----------

  function RemoveFromFirst(s: seq<Chunk>, size: nat): seq<Chunk>
    requires s != []
  {
    if s[0].size <= size then s[1..]
    else [Chunk(s[0].offset + size, s[0].size - size)] + s[1..]
  }

  // Exactly the first `size` bytes of the first entry are forgotten.
  lemma RemoveFromFirstFacts(s: seq<Chunk>, size: nat)
    requires Separated(s) && s != []
    ensures Separated(RemoveFromFirst(s, size)) && |RemoveFromFirst(s, size)| <= |s|
    ensures Total(RemoveFromFirst(s, size)) == Total(s) - Min(size, s[0].size)
    ensures forall x :: Covers(RemoveFromFirst(s, size), x) <==>
                        Covers(s, x) && !(s[0].offset <= x < s[0].offset + size && s[0].Has(x))
  {
    var t := RemoveFromFirst(s, size);
    SeparatedSlice(s, 1, |s|);
    if size < s[0].size {
      assert |s| > 1 ==> s[0].Before(s[1]);
      SeparatedConcat([t[0]], s[1..]);
      assert t[1..] == s[1..];
    }
    forall x ensures Covers(t, x) <==> Covers(s, x) && !(s[0].Has(x) && x < s[0].offset + size) {
      HeadApart(s, x);
      HeadCovers(s, x);
      if size < s[0].size {
        HeadCovers(t, x);
      }
    }
  }

  lemma HeadCovers(s: seq<Chunk>, x: int)
    requires s != []
    ensures Covers(s, x) <==> s[0].Has(x) || Covers(s[1..], x)
  {
    assert s == [s[0]] + s[1..];
    CoversConcat([s[0]], s[1..], x);
    if s[0].Has(x) {
      assert Covers([s[0]], x) by { assert [s[0]][0].Has(x); }
    }
  }
}
