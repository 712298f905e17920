/** Transactions and history entries of a channel: what is taken, given back and used again. */
module History {
  import opened Cfdp
  import opened Crc
  import opened ChunkSpec
  import Queues
  import Rx = RxSpec
  import Tx = TxSpec

  // The free transactions, the entry each transaction in use holds, the two queues
  // of entries, and the status each entry stores. Entries and transactions are numbers.
  datatype Pool = Pool(free: seq<nat>, used: map<nat, nat>, hist: seq<nat>, histFree: seq<nat>, stat: seq<Status>)
  {
    // A free entry, else the oldest one.
    predicate HasSlot() { histFree != [] || hist != [] }

    function Slot(): nat
      requires HasSlot()
    {
      if histFree != [] then histFree[0] else hist[0]
    }

    // The assertion in CF_FindUnusedTransaction.
    predicate Sound() { free != [] ==> HasSlot() }

    predicate Poisoned(h: nat) { h < |stat| && IsError(stat[h]) }
  }

  function Count(n: nat): (r: seq<nat>)
    ensures |r| == n && forall k :: 0 <= k < n ==> r[k] == k
  {
    if n == 0 then [] else Count(n - 1) + [n - 1]
  }

  function NoErrors(n: nat): (r: seq<Status>)
    ensures |r| == n && forall k :: 0 <= k < n ==> r[k] == ST_NO_ERROR
  {
    if n == 0 then [] else NoErrors(n - 1) + [ST_NO_ERROR]
  }

  // CF_CFDP_InitEngine, for one channel.
  function Fresh(txns: nat, entries: nat): Pool { Pool(Count(txns), map[], [], Count(entries), NoErrors(entries)) }

  datatype Op =
    | Acquire                        // CF_FindUnusedTransaction
    | SetStatus(t: nat, s: Status)   // CF_CFDP_SetTxnStatus
    | Recycle(t: nat, keep: bool)    // CF_CFDP_RecycleTransaction
    | Purge(h: nat)                  // CF_ResetHistory

  // Operations on a transaction not in use, or an entry not in the history, are none.
  function Apply(p: Pool, op: Op): Pool {
    match op
    case Acquire =>
      if p.free == [] || !p.HasSlot() then p
      else
        p.(free := p.free[1..], used := p.used[p.free[0] := p.Slot()],
           histFree := if p.histFree != [] then p.histFree[1..] else p.histFree,
           hist := if p.histFree != [] then p.hist else p.hist[1..])
    case SetStatus(t, s) =>
      if t !in p.used || |p.stat| <= p.used[t] || p.Poisoned(p.used[t]) then p
      else p.(stat := p.stat[p.used[t] := s])
    case Recycle(t, keep) =>
      if t !in p.used then p
      else
        p.(free := p.free + [t], used := p.used - {t},
           hist := if keep then p.hist + [p.used[t]] else p.hist,
           histFree := if keep then p.histFree else p.histFree + [p.used[t]])
    case Purge(h) =>
      if h !in p.hist then p
      else p.(hist := Queues.Drop(p.hist, h), histFree := p.histFree + [h])
  }

  function Run(p: Pool, ops: seq<Op>): Pool
    decreases |ops|
  {
    if ops == [] then p else Apply(Run(p, ops[..|ops| - 1]), ops[|ops| - 1])
  }

  // ---------- no entry is lost or held twice ----------

  // How often entry `h` is held, queued or kept.
  ghost predicate Valid(p: Pool, txns: nat, entries: nat) {
    && |p.stat| == entries
    && |p.free| + |p.used| == txns && |p.hist| + |p.histFree| + |p.used| == entries
    && (forall t :: t in p.used ==> t !in p.free && p.used[t] < entries)
    && Queues.NoRepeats(p.free) && Queues.NoRepeats(p.hist + p.histFree)
    && (forall h :: h in p.hist + p.histFree ==> h < entries)
    && (forall t, h :: t in p.used && h in p.hist + p.histFree ==> p.used[t] != h)
    && (forall t, u :: t in p.used && u in p.used && t != u ==> p.used[t] != p.used[u])
  }

  lemma FreshValid(txns: nat, entries: nat)
    ensures Valid(Fresh(txns, entries), txns, entries)
  {
    assert Fresh(txns, entries).hist + Fresh(txns, entries).histFree == Count(entries);
  }

  lemma AcquireValid(p: Pool, txns: nat, entries: nat)
    requires Valid(p, txns, entries)
    ensures Valid(Apply(p, Acquire), txns, entries)
  {
    if p.free != [] && p.HasSlot() {
      var t, q := p.free[0], Apply(p, Acquire);
      var all, i := p.hist + p.histFree, if p.histFree != [] then |p.hist| else 0;
      assert all[i] == p.Slot();
      assert q.hist + q.histFree == all[..i] + all[i + 1..];
      OneLess(all, i);
      assert all[i] in all && t in p.free;
      TakenUsed(p, t, p.Slot(), txns, entries);
      forall j, k | 0 <= j < k < |q.free| ensures q.free[j] != q.free[k] {
        assert q.free[j] == p.free[j + 1] && q.free[k] == p.free[k + 1];
      }
    }
  }

  lemma TakenUsed(p: Pool, t: nat, h: nat, txns: nat, entries: nat)
    requires Valid(p, txns, entries) && t in p.free && t == p.free[0] && h in p.hist + p.histFree
    ensures var used := p.used[t := h];
            && |used| == |p.used| + 1
            && (forall u :: u in used ==> u !in p.free[1..] && used[u] < entries)
            && (forall u, v :: u in used && v in used && u != v ==> used[u] != used[v])
  {
    assert t !in p.used;
    assert forall u :: u in p.used ==> p.used[u] != h;
  }

  lemma OneLess(s: seq<nat>, i: nat)
    requires i < |s| && Queues.NoRepeats(s)
    ensures var r := s[..i] + s[i + 1..];
            Queues.NoRepeats(r) && s[i] !in r && forall x :: x in r ==> x in s
  {
  }

  lemma OneMore(s: seq<nat>, i: nat, x: nat)
    requires i <= |s| && Queues.NoRepeats(s) && x !in s
    ensures var r := s[..i] + [x] + s[i..];
            Queues.NoRepeats(r) && x in r && forall y :: y in r <==> y in s || y == x
  {
    var r := s[..i] + [x] + s[i..];
    assert s == s[..i] + s[i..];
    forall j, k | 0 <= j < k < |r| ensures r[j] != r[k] {
      assert j != i ==> r[j] == s[if j < i then j else j - 1];
      assert k != i ==> r[k] == s[if k < i then k else k - 1];
    }
  }

  lemma RecycleValid(p: Pool, t: nat, keep: bool, txns: nat, entries: nat)
    requires Valid(p, txns, entries)
    ensures Valid(Apply(p, Recycle(t, keep)), txns, entries)
  {
    if t in p.used {
      var q := Apply(p, Recycle(t, keep));
      var all, i := p.hist + p.histFree, if keep then |p.hist| else |p.hist| + |p.histFree|;
      assert q.hist + q.histFree == all[..i] + [p.used[t]] + all[i..];
      OneMore(all, i, p.used[t]);
      UsedLess(p.used, t);
    }
  }

  lemma UsedLess(used: map<nat, nat>, t: nat)
    requires t in used
    ensures |used - {t}| == |used| - 1
  {
    assert (used - {t}).Keys == used.Keys - {t};
    assert |used.Keys| == |used| && |(used - {t}).Keys| == |used - {t}|;
  }

  lemma PurgeValid(p: Pool, h: nat, txns: nat, entries: nat)
    requires Valid(p, txns, entries)
    ensures Valid(Apply(p, Purge(h)), txns, entries)
  {
    hide Queues.NoRepeats;
    if h in p.hist {
      assert Queues.NoRepeats(p.hist + p.histFree);
      Requeued(p.hist, p.histFree, h);
    }
  }

  // Taken out of the first queue and put behind the second one.
  lemma Requeued(a: seq<nat>, b: seq<nat>, h: nat)
    requires h in a && Queues.NoRepeats(a + b)
    ensures var r := Queues.Drop(a, h) + (b + [h]);
            |r| == |a + b| && Queues.NoRepeats(r) && forall x :: x in r <==> x in a + b
  {
    hide Queues.NoRepeats, Queues.Drop;
    var i := Where(a, h);
    var less := (a + b)[..i] + (a + b)[i + 1..];
    assert less == Queues.Drop(a, h) + b;
    OneLess(a + b, i);
    OneMore(less, |less|, h);
    assert less[..|less|] + [h] + less[|less|..] == Queues.Drop(a, h) + (b + [h]);
    Members(a + b, i);
  }

  lemma Members(s: seq<nat>, i: nat)
    requires i < |s|
    ensures forall x :: x in s <==> x in s[..i] + s[i + 1..] || x == s[i]
  {
    assert s == s[..i] + [s[i]] + s[i + 1..];
  }

  lemma {:induction false} Where(s: seq<nat>, x: nat) returns (i: nat)
    requires x in s
    ensures i < |s| && s[i] == x && Queues.Drop(s, x) == s[..i] + s[i + 1..]
  {
    if s[0] == x {
      i := 0;
    } else {
      var k := Where(s[1..], x);
      i := k + 1;
      assert s[..i] == [s[0]] + s[1..][..k] && s[i + 1..] == s[1..][k + 1..];
    }
  }

  lemma ApplyValid(p: Pool, op: Op, txns: nat, entries: nat)
    requires Valid(p, txns, entries)
    ensures Valid(Apply(p, op), txns, entries)
  {
    hide Apply, Valid;
    match op {
      case Acquire => AcquireValid(p, txns, entries);
      case SetStatus(t, s) => StatusValid(p, t, s, txns, entries);
      case Recycle(t, keep) => RecycleValid(p, t, keep, txns, entries);
      case Purge(h) => PurgeValid(p, h, txns, entries);
    }
  }

  lemma StatusValid(p: Pool, t: nat, s: Status, txns: nat, entries: nat)
    requires Valid(p, txns, entries)
    ensures Valid(Apply(p, SetStatus(t, s)), txns, entries)
  {
  }

  // Over every run: each entry is held by one transaction or in one of the two
  // queues, once; transactions and entries are neither lost nor made.
  lemma {:induction false} RunValid(ops: seq<Op>, txns: nat, entries: nat)
    ensures Valid(Run(Fresh(txns, entries), ops), txns, entries)
    decreases |ops|
  {
    hide Apply, Valid;
    if ops == [] {
      FreshValid(txns, entries);
    } else {
      RunValid(ops[..|ops| - 1], txns, entries);
      ApplyValid(Run(Fresh(txns, entries), ops[..|ops| - 1]), ops[|ops| - 1], txns, entries);
    }
  }

  // ---------- the assertion on the history queue ----------

  function Acquires(n: nat): seq<Op> { if n == 0 then [] else Acquires(n - 1) + [Acquire] }

  lemma {:induction false} AllTaken(txns: nat, entries: nat, n: nat)
    requires n <= entries < txns
    ensures var p := Run(Fresh(txns, entries), Acquires(n));
            p.free == Count(txns)[n..] && p.histFree == Count(entries)[n..] && p.hist == []
  {
    if n != 0 {
      AllTaken(txns, entries, n - 1);
      assert Acquires(n)[..|Acquires(n)| - 1] == Acquires(n - 1);
    }
  }

  // A free transaction always finds an entry, in every run, exactly if there are
  // as many entries as transactions.
  lemma EntriesSufficeIff(txns: nat, entries: nat)
    ensures (forall ops: seq<Op> :: Run(Fresh(txns, entries), ops).Sound()) <==> txns <= entries
  {
    if txns <= entries {
      forall ops: seq<Op> ensures Run(Fresh(txns, entries), ops).Sound() {
        RunValid(ops, txns, entries);
      }
    } else {
      AllTaken(txns, entries, entries);
      assert !Run(Fresh(txns, entries), Acquires(entries)).Sound();
    }
  }

  // ---------- a status outlives its transaction ----------

  // Nothing resets the status of an entry: an error stays for good.
  lemma {:induction false} PoisonStays(p: Pool, ops: seq<Op>, h: nat)
    requires p.Poisoned(h)
    ensures Run(p, ops).Poisoned(h) && Run(p, ops).stat[h] == p.stat[h]
    decreases |ops|
  {
    if ops != [] {
      PoisonStays(p, ops[..|ops| - 1], h);
    }
  }

  // Some transaction that held entry `h` has failed.
  ghost predicate FailedOn(p: Pool, ops: seq<Op>, h: nat) {
    exists k :: 0 <= k < |ops| && Fails(Run(p, ops[..k]), ops[k], h)
  }

  predicate Fails(p: Pool, op: Op, h: nat) {
    op.SetStatus? && IsError(op.s) && op.t in p.used && p.used[op.t] == h
  }

  lemma FailedOnBack(p: Pool, ops: seq<Op>, h: nat)
    requires ops != []
    ensures var front := ops[..|ops| - 1];
            FailedOn(p, ops, h) <==> FailedOn(p, front, h) || Fails(Run(p, front), ops[|ops| - 1], h)
  {
    hide Run, Fails;
    var front := ops[..|ops| - 1];
    assert forall k :: 0 <= k < |ops| ==> ops[..k] == if k < |front| then front[..k] else front;
    if FailedOn(p, ops, h) && !Fails(Run(p, front), ops[|ops| - 1], h) {
      var k :| 0 <= k < |ops| && Fails(Run(p, ops[..k]), ops[k], h);
      assert k < |front| && front[k] == ops[k] && front[..k] == ops[..k];
    }
    if FailedOn(p, front, h) {
      var k :| 0 <= k < |front| && Fails(Run(p, front[..k]), front[k], h);
      assert front[k] == ops[k] && front[..k] == ops[..k];
    }
  }

  lemma {:induction false} PoisonedIff(ops: seq<Op>, txns: nat, entries: nat, h: nat)
    requires h < entries
    ensures Run(Fresh(txns, entries), ops).Poisoned(h) <==> FailedOn(Fresh(txns, entries), ops, h)
    decreases |ops|
  {
    if ops != [] {
      PoisonedIff(ops[..|ops| - 1], txns, entries, h);
      FailedOnBack(Fresh(txns, entries), ops, h);
      RunValid(ops[..|ops| - 1], txns, entries);
    }
  }

  // Over every run: a new receiving transaction becomes active, and a new sending
  // one that finds its file is put to work, exactly if no transaction that held its
  // entry before has ever failed.
  lemma StaleStatusIff(cfg: Config, ops: seq<Op>, txns: nat, entries: nat, unack: bool, list: Handed,
                       createOk: bool, size: uint32)
    requires Run(Fresh(txns, entries), ops).HasSlot()
    ensures var p := Run(Fresh(txns, entries), ops);
            var h := p.Slot();
            && h < entries == |p.stat|
            && (Rx.Setup(cfg, unack, Some(list), p.stat[h], createOk, None).Active()
                <==> !FailedOn(Fresh(txns, entries), ops, h))
            && (Tx.Setup(cfg, Tx.Pending(!unack, false, true, p.stat[h], 0, 0),
                         Tx.Opening(Some(list), false, true, Some(size), true)).1
                <==> !FailedOn(Fresh(txns, entries), ops, h))
  {
    hide Run, FailedOn, Apply;
    RunValid(ops, txns, entries);
    var p := Run(Fresh(txns, entries), ops);
    assert p.Slot() in p.hist + p.histFree;
    PoisonedIff(ops, txns, entries, p.Slot());
  }

  // ---------- failures one after the other ----------

  // One transaction that fails, and is the only one at that time.
  function Failing(p: Pool, s: Status, keep: bool): seq<Op> {
    if p.free == [] then [] else [Acquire, SetStatus(p.free[0], s), Recycle(p.free[0], keep)]
  }

  datatype Failure = Failure(s: Status, keep: bool)

  // The operations of such transactions, one for each failure.
  function Failings(txns: nat, entries: nat, fs: seq<Failure>): seq<Op>
    decreases |fs|
  {
    if fs == [] then []
    else
      var ops := Failings(txns, entries, fs[..|fs| - 1]);
      ops + Failing(Run(Fresh(txns, entries), ops), fs[|fs| - 1].s, fs[|fs| - 1].keep)
  }

  lemma {:induction false} RunConcat(p: Pool, a: seq<Op>, b: seq<Op>)
    ensures Run(p, a + b) == Run(Run(p, a), b)
    decreases |b|
  {
    if b == [] {
      assert a + b == a;
    } else {
      assert (a + b)[..|a + b| - 1] == a + b[..|b| - 1];
      RunConcat(p, a, b[..|b| - 1]);
    }
  }

  lemma Three(p: Pool, a: Op, b: Op, c: Op)
    ensures Run(p, [a, b, c]) == Apply(Apply(Apply(p, a), b), c)
  {
    hide Run, Apply;
    RunBack(p, [], a);
    RunBack(p, [a], b);
    RunBack(p, [a, b], c);
    RunNone(p);
    assert [] + [a] == [a] && [a] + [b] == [a, b] && [a, b] + [c] == [a, b, c];
  }

  lemma RunBack(p: Pool, ops: seq<Op>, op: Op)
    ensures Run(p, ops + [op]) == Apply(Run(p, ops), op)
  {
    hide Apply;
    assert (ops + [op])[..|ops|] == ops;
  }

  lemma RunNone(p: Pool)
    ensures Run(p, []) == p
  {
  }

  // The entries not used yet come first.
  ghost predicate Spoiled(p: Pool, entries: nat, n: nat) {
    && p.free != [] && p.used == map[] && |p.stat| == entries && n <= entries <= |p.histFree| + n
    && (forall k :: 0 <= k < entries - n ==> p.histFree[k] == n + k)
    && (forall h :: 0 <= h < entries ==> (IsError(p.stat[h]) <==> h < n))
  }

  lemma FailingSpoils(p: Pool, entries: nat, n: nat, s: Status, keep: bool)
    requires Spoiled(p, entries, n) && n < entries && IsError(s)
    ensures Spoiled(Run(p, Failing(p, s, keep)), entries, n + 1)
  {
    hide Run;
    var t := p.free[0];
    Three(p, Acquire, SetStatus(t, s), Recycle(t, keep));
    var a := Apply(p, Acquire);
    assert a.used == map[t := n] && a.stat == p.stat && !a.Poisoned(n);
    var b := Apply(a, SetStatus(t, s));
    assert b == a.(stat := a.stat[n := s]);
    var c := Apply(b, Recycle(t, keep));
    assert c.used == map[] && c.stat == b.stat;
    assert forall k :: 0 <= k < entries - n - 1 ==> a.histFree[k] == p.histFree[k + 1];
  }

  // From a fresh start, with at least one transaction, as many failing
  // transactions one after the other as there are entries spoil every entry.
  lemma {:induction false} FailuresSpoil(txns: nat, entries: nat, fs: seq<Failure>)
    requires 0 < txns && |fs| <= entries && forall k :: 0 <= k < |fs| ==> IsError(fs[k].s)
    ensures Spoiled(Run(Fresh(txns, entries), Failings(txns, entries, fs)), entries, |fs|)
    decreases |fs|
  {
    hide Run, Spoiled;
    if fs == [] {
      FreshSpoiled(txns, entries);
    } else {
      var front, last := fs[..|fs| - 1], fs[|fs| - 1];
      FailuresSpoil(txns, entries, front);
      var ops := Failings(txns, entries, front);
      var p := Run(Fresh(txns, entries), ops);
      FailingSpoils(p, entries, |front|, last.s, last.keep);
      RunConcat(Fresh(txns, entries), ops, Failing(p, last.s, last.keep));
    }
  }

  lemma FreshSpoiled(txns: nat, entries: nat)
    requires 0 < txns
    ensures Spoiled(Run(Fresh(txns, entries), []), entries, 0)
  {
  }

  // From then on no new receiving transaction ever becomes active and no new
  // sending one is put to work, whatever else happens.
  lemma NothingStartsAfter(cfg: Config, txns: nat, entries: nat, fs: seq<Failure>, more: seq<Op>,
                           unack: bool, list: Option<Handed>, createOk: bool, o: Tx.Opening)
    requires 0 < txns && |fs| == entries && forall k :: 0 <= k < |fs| ==> IsError(fs[k].s)
    requires Run(Fresh(txns, entries), Failings(txns, entries, fs) + more).HasSlot()
    ensures var p := Run(Fresh(txns, entries), Failings(txns, entries, fs) + more);
            && p.Slot() < entries == |p.stat|
            && !Rx.Setup(cfg, unack, list, p.stat[p.Slot()], createOk, None).Active()
            && !Tx.Setup(cfg, Tx.Pending(!unack, false, true, p.stat[p.Slot()], 0, 0), o).1
  {
    hide Run, Apply, Failings;
    var ops := Failings(txns, entries, fs);
    RunValid(ops + more, txns, entries);
    var p := Run(Fresh(txns, entries), ops + more);
    assert p.Slot() in p.hist + p.histFree;
    FailuresSpoil(txns, entries, fs);
    RunConcat(Fresh(txns, entries), ops, more);
    PoisonStays(Run(Fresh(txns, entries), ops), more, p.Slot());
  }

  // ---------- the channel, updated in place ----------

  class Channel {
    var free: seq<nat>
    var used: map<nat, nat>
    var hist: seq<nat>
    var histFree: seq<nat>
    var stat: seq<Status>

    function Abs(): Pool
      reads this
    {
      Pool(free, used, hist, histFree, stat)
    }

    constructor (txns: nat, entries: nat)
      ensures Abs() == Fresh(txns, entries)
    {
      free, used, hist, histFree, stat := Count(txns), map[], [], Count(entries), NoErrors(entries);
    }

    method FindUnusedTransaction() returns (t: Option<nat>)
      requires Abs().Sound()
      modifies this`free, this`used, this`hist, this`histFree
      ensures Abs() == Apply(old(Abs()), Acquire)
      ensures t == if old(free) == [] then None else Some(old(free)[0])
      ensures t.Some? ==> t.value in used && used[t.value] == old(Abs()).Slot()
    {
      t := None;
      if free != [] {
        t := Some(free[0]);
        free := free[1..];
        if histFree != [] {
          used := used[t.value := histFree[0]];
          histFree := histFree[1..];
        } else {
          used := used[t.value := hist[0]];
          hist := hist[1..];
        }
      }
    }

    method SetTxnStatus(t: nat, s: Status)
      requires t in used && used[t] < |stat|
      modifies this`stat
      ensures Abs() == Apply(old(Abs()), SetStatus(t, s))
    {
      if !IsError(stat[used[t]]) {
        stat := stat[used[t] := s];
      }
    }

    method RecycleTransaction(t: nat, keepHistory: bool)
      requires t in used
      modifies this`free, this`used, this`hist, this`histFree
      ensures Abs() == Apply(old(Abs()), Recycle(t, keepHistory))
    {
      if keepHistory {
        hist := hist + [used[t]];
      } else {
        histFree := histFree + [used[t]];
      }
      used := used - {t};
      free := free + [t];
    }

    method ResetHistory(h: nat)
      requires h in hist
      modifies this`hist, this`histFree
      ensures Abs() == Apply(old(Abs()), Purge(h))
    {
      hist := Queues.Drop(hist, h);
      histFree := histFree + [h];
    }
  }
}
