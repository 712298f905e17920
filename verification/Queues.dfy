/** The transaction queues of a channel: lists, separate size counters, and the queue index in each transaction. */
module Queues {

  const PEND := 0
  const FREE := 5
  const NUM := 6

  // Transactions are numbers here; the rings of the queues are sequences of them.
  datatype State = State(qs: seq<seq<nat>>, size: seq<nat>, index: map<nat, nat>)

  // What a transaction's index says in queue `q`: freeing a transaction wipes it,
  // so in the free queue the index is 0, which is the pending queue.
  function Named(q: nat): nat { if q == FREE then PEND else q }

  predicate NoRepeats(s: seq<nat>) { forall i, j :: 0 <= i < j < |s| ==> s[i] != s[j] }

  ghost predicate Floating(st: State, t: nat)
    requires |st.qs| == NUM
  {
    forall q :: 0 <= q < NUM ==> t !in st.qs[q]
  }

  // No transaction is in two places, every counter is the length of its list, and
  // each index names the queue the transaction is in, but for the free ones.
  ghost predicate Valid(st: State) {
    && |st.qs| == NUM && |st.size| == NUM
    && (forall q :: 0 <= q < NUM ==> st.size[q] == |st.qs[q]| && NoRepeats(st.qs[q]))
    && (forall q, r, t :: 0 <= q < NUM && 0 <= r < NUM && t in st.qs[q] && t in st.qs[r] ==> q == r)
    && (forall q, t :: 0 <= q < NUM && t in st.qs[q] ==> t in st.index && st.index[t] == Named(q))
  }

  function Total(size: seq<nat>): nat {
    if size == [] then 0 else size[0] + Total(size[1..])
  }

  // ---------- the operations ----------

  function Drop(s: seq<nat>, t: nat): (r: seq<nat>)
    ensures t !in s ==> r == s
    ensures t in s ==> |r| == |s| - 1
    ensures forall x :: x != t ==> (x in r <==> x in s)
  {
    if s == [] then [] else if s[0] == t then s[1..] else [s[0]] + Drop(s[1..], t)
  }

  // CF_CList_Remove_Ex
  function RemoveFrom(st: State, q: nat, t: nat): State
    requires |st.qs| == |st.size| == NUM && q < NUM && 0 < st.size[q]
  {
    st.(qs := st.qs[q := Drop(st.qs[q], t)], size := st.size[q := st.size[q] - 1])
  }

  // A queue put in place of another one, one entry longer; the caller sets the index.
  function Longer(st: State, q: nat, s: seq<nat>, t: nat, named: nat): State
    requires |st.qs| == |st.size| == NUM && q < NUM
  {
    State(st.qs[q := s], st.size[q := st.size[q] + 1], st.index[t := named])
  }

  // The last entry whose priority value is at most `p`, or -1.
  function LastAtMost(s: seq<nat>, prio: map<nat, nat>, p: nat): (k: int)
    requires forall t :: t in s ==> t in prio
    ensures -1 <= k < |s|
    ensures 0 <= k ==> prio[s[k]] <= p
    ensures forall i :: k < i < |s| ==> p < prio[s[i]]
  {
    if s == [] then -1
    else if prio[s[|s| - 1]] <= p then |s| - 1
    else LastAtMost(s[..|s| - 1], prio, p)
  }

  // CF_InsertSortPrio on the list
  function PrioInsert(s: seq<nat>, prio: map<nat, nat>, t: nat): seq<nat>
    requires t in prio && forall u :: u in s ==> u in prio
  {
    var k := LastAtMost(s, prio, prio[t]);
    if 0 <= k then s[..k + 1] + [t] + s[k + 1..] else s + [t]
  }

  datatype Op =
    | Dequeue(t: nat)                // CF_DequeueTransaction
    | InsertBack(t: nat, q: nat)     // with the index set
    | InsertPrio(t: nat, q: nat)     // CF_InsertSortPrio
    | Move(t: nat, q: nat)           // CF_MoveTransaction
    | Release(t: nat)                // CF_FreeTransaction
    | Acquire                        // CF_FindUnusedTransaction

  // What the assertions of the source and its callers see to.
  ghost predicate Enabled(st: State, prio: map<nat, nat>, op: Op)
    requires Valid(st)
  {
    match op
    case Dequeue(t) => t in st.index && st.index[t] < NUM && t in st.qs[st.index[t]]
    case InsertBack(t, q) => q < NUM && q != FREE && Floating(st, t)
    case InsertPrio(t, q) =>
      q < NUM && q != FREE && Floating(st, t) && t in prio && forall u :: u in st.qs[q] ==> u in prio
    case Move(t, q) => q < NUM && q != FREE && t in st.index && st.index[t] < NUM && t in st.qs[st.index[t]]
    case Release(t) => Floating(st, t)
    case Acquire => st.qs[FREE] != []
  }

  ghost function Apply(st: State, prio: map<nat, nat>, op: Op): State
    requires Valid(st) && Enabled(st, prio, op)
  {
    match op
    case Dequeue(t) => RemoveFrom(st, st.index[t], t)
    case InsertBack(t, q) => Longer(st, q, st.qs[q] + [t], t, q)
    case InsertPrio(t, q) => Longer(st, q, PrioInsert(st.qs[q], prio, t), t, q)
    case Move(t, q) =>
      var a := RemoveFrom(st, st.index[t], t);
      Longer(a, q, a.qs[q] + [t], t, q)
    case Release(t) => Longer(st, FREE, st.qs[FREE] + [t], t, PEND)
    case Acquire => RemoveFrom(st, FREE, st.qs[FREE][0])
  }

  // ---------- every operation keeps the invariant ----------

  lemma {:induction false} DropOnce(s: seq<nat>, t: nat)
    requires NoRepeats(s)
    ensures t !in Drop(s, t) && NoRepeats(Drop(s, t))
  {
    if s != [] {
      assert forall i :: 0 <= i < |s[1..]| ==> s[1..][i] == s[i + 1];
      DropOnce(s[1..], t);
      var d := Drop(s[1..], t);
      if s[0] != t {
        assert s[0] !in s[1..];
        assert s[0] !in d;
      }
    }
  }

  lemma TotalUpdate(size: seq<nat>, q: nat, n: nat)
    requires q < |size|
    ensures Total(size[q := n]) + size[q] == Total(size) + n
  {
    if q == 0 {
      assert size[q := n][1..] == size[1..];
    } else {
      assert size[q := n][1..] == size[1..][q - 1 := n];
      TotalUpdate(size[1..], q - 1, n);
    }
  }

  lemma RemoveKeeps(st: State, q: nat, t: nat)
    requires Valid(st) && q < NUM && t in st.qs[q]
    ensures Valid(RemoveFrom(st, q, t)) && Floating(RemoveFrom(st, q, t), t)
    ensures Total(RemoveFrom(st, q, t).size) + 1 == Total(st.size)
  {
    var a := RemoveFrom(st, q, t);
    DropOnce(st.qs[q], t);
    TotalUpdate(st.size, q, st.size[q] - 1);
    forall r, u | 0 <= r < NUM && u in a.qs[r] ensures u in st.qs[r] && u != t {
    }
  }

  // The new list holds the old entries and the new one.
  ghost predicate Extends(s: seq<nat>, r: seq<nat>, t: nat) {
    |r| == |s| + 1 && NoRepeats(r) && forall x :: x in r <==> x in s || x == t
  }

  lemma LongerKeeps(st: State, q: nat, s: seq<nat>, t: nat)
    requires Valid(st) && q < NUM && Floating(st, t) && Extends(st.qs[q], s, t)
    ensures Valid(Longer(st, q, s, t, Named(q)))
    ensures Total(Longer(st, q, s, t, Named(q)).size) == Total(st.size) + 1
  {
    var a := Longer(st, q, s, t, Named(q));
    TotalUpdate(st.size, q, st.size[q] + 1);
    forall r, u | 0 <= r < NUM && u in a.qs[r] ensures (u in st.qs[r] && u != t) || (r == q && u == t) {
    }
  }

  lemma BackExtends(s: seq<nat>, t: nat)
    requires NoRepeats(s) && t !in s
    ensures Extends(s, s + [t], t)
  {
  }

  lemma PrioExtends(s: seq<nat>, prio: map<nat, nat>, t: nat)
    requires NoRepeats(s) && t !in s && t in prio && forall u :: u in s ==> u in prio
    ensures Extends(s, PrioInsert(s, prio, t), t)
  {
    var k := LastAtMost(s, prio, prio[t]);
    var r := PrioInsert(s, prio, t);
    if 0 <= k {
      forall i, j | 0 <= i < j < |r| ensures r[i] != r[j] {
        assert i != k + 1 ==> r[i] == s[if i <= k then i else i - 1];
        assert j != k + 1 ==> r[j] == s[if j <= k then j else j - 1];
      }
      forall x ensures x in r <==> x in s || x == t {
        assert s == s[..k + 1] + s[k + 1..];
      }
    } else {
      BackExtends(s, t);
    }
  }

  // How an operation changes the number of transactions in queues.
  function Gain(op: Op): int {
    match op
    case Dequeue(_) => -1
    case Acquire => -1
    case Move(_, _) => 0
    case _ => 1
  }

  lemma ApplyKeeps(st: State, prio: map<nat, nat>, op: Op)
    requires Valid(st) && Enabled(st, prio, op)
    ensures Valid(Apply(st, prio, op))
    ensures Total(Apply(st, prio, op).size) == Total(st.size) + Gain(op)
  {
    hide Valid, Total, NoRepeats, Extends, Drop;
    ListsSound(st);
    match op {
      case Dequeue(t) =>
        RemoveKeeps(st, st.index[t], t);
      case InsertBack(t, q) =>
        BackExtends(st.qs[q], t);
        LongerKeeps(st, q, st.qs[q] + [t], t);
      case InsertPrio(t, q) =>
        PrioExtends(st.qs[q], prio, t);
        LongerKeeps(st, q, PrioInsert(st.qs[q], prio, t), t);
      case Move(t, q) =>
        var a := RemoveFrom(st, st.index[t], t);
        RemoveKeeps(st, st.index[t], t);
        ListsSound(a);
        BackExtends(a.qs[q], t);
        LongerKeeps(a, q, a.qs[q] + [t], t);
      case Release(t) =>
        BackExtends(st.qs[FREE], t);
        LongerKeeps(st, FREE, st.qs[FREE] + [t], t);
      case Acquire =>
        RemoveKeeps(st, FREE, st.qs[FREE][0]);
    }
  }

  lemma ListsSound(st: State)
    requires Valid(st)
    ensures |st.qs| == NUM && |st.size| == NUM && forall q :: 0 <= q < NUM ==> NoRepeats(st.qs[q])
    ensures forall q :: 0 <= q < NUM ==> st.size[q] == |st.qs[q]|
  {
  }

  // ---------- runs ----------

  ghost predicate AllEnabled(st: State, prio: map<nat, nat>, ops: seq<Op>)
    requires Valid(st)
    decreases |ops|
  {
    ops == [] ||
    (Enabled(st, prio, ops[0]) &&
     (ApplyKeeps(st, prio, ops[0]); AllEnabled(Apply(st, prio, ops[0]), prio, ops[1..])))
  }

  ghost function Run(st: State, prio: map<nat, nat>, ops: seq<Op>): State
    requires Valid(st) && AllEnabled(st, prio, ops)
    decreases |ops|
  {
    if ops == [] then st
    else
      ApplyKeeps(st, prio, ops[0]);
      Run(Apply(st, prio, ops[0]), prio, ops[1..])
  }

  function Gains(ops: seq<Op>): int {
    if ops == [] then 0 else Gain(ops[0]) + Gains(ops[1..])
  }

  // Over every run: each queued transaction is in one queue only, the one its
  // index names unless it is free, each counter is the length of its list, and the
  // counters together move by exactly what was put in and taken out.
  lemma {:induction false} RunKeeps(st: State, prio: map<nat, nat>, ops: seq<Op>)
    requires Valid(st) && AllEnabled(st, prio, ops)
    ensures Valid(Run(st, prio, ops))
    ensures Total(Run(st, prio, ops).size) == Total(st.size) + Gains(ops)
    decreases |ops|
  {
    if ops != [] {
      hide Valid, Total, Apply, Enabled;
      ApplyKeeps(st, prio, ops[0]);
      RunKeeps(Apply(st, prio, ops[0]), prio, ops[1..]);
    }
  }

  // Over every run the index of a transaction never says that it is free, so the
  // test for an already freed one always passes; it names the queue in all others.
  lemma IndexNeverSaysFree(st: State, prio: map<nat, nat>, ops: seq<Op>, q: nat, t: nat)
    requires Valid(st) && AllEnabled(st, prio, ops) && q < NUM
    ensures var r := Run(st, prio, ops);
            |r.qs| == NUM && (t in r.qs[q] ==> t in r.index && r.index[t] != FREE && (r.index[t] == q <==> q != FREE))
  {
    hide Run, AllEnabled;
    RunKeeps(st, prio, ops);
  }

  // ---------- sorting by priority ----------

  predicate Sorted(s: seq<nat>, prio: map<nat, nat>)
    requires forall t :: t in s ==> t in prio
  {
    forall i, j :: 0 <= i < j < |s| ==> prio[s[i]] <= prio[s[j]]
  }

  // Right behind the last entry that is not after the new one in priority; a
  // sorted queue stays sorted exactly if there is such an entry or the queue was empty.
  lemma PrioPlacement(s: seq<nat>, prio: map<nat, nat>, t: nat)
    requires t in prio && forall u :: u in s ==> u in prio
    ensures var r := PrioInsert(s, prio, t);
            && multiset(r) == multiset(s) + multiset{t}
            && (forall u :: u in r ==> u in prio)
            && (Sorted(s, prio) ==> (Sorted(r, prio) <==> s == [] || prio[s[0]] <= prio[t]))
  {
    var k, r := LastAtMost(s, prio, prio[t]), PrioInsert(s, prio, t);
    if 0 <= k {
      assert s == s[..k + 1] + s[k + 1..];
      SortedInsert(s, prio, t, k);
    } else if s != [] {
      assert r[0] == s[0] && r[|s|] == t;
    }
  }

  lemma SortedInsert(s: seq<nat>, prio: map<nat, nat>, t: nat, k: nat)
    requires t in prio && forall u :: u in s ==> u in prio
    requires k < |s| && k == LastAtMost(s, prio, prio[t])
    ensures var r := s[..k + 1] + [t] + s[k + 1..];
            && (forall u :: u in r ==> u in prio)
            && (Sorted(s, prio) ==> Sorted(r, prio) && prio[s[0]] <= prio[t])
  {
    var r := s[..k + 1] + [t] + s[k + 1..];
    if Sorted(s, prio) {
      forall i, j | 0 <= i < j < |r| ensures prio[r[i]] <= prio[r[j]] {
        assert i != k + 1 ==> r[i] == s[if i <= k then i else i - 1];
        assert j != k + 1 ==> r[j] == s[if j <= k then j else j - 1];
        assert i <= k ==> prio[s[i]] <= prio[s[k]];
      }
    }
  }

  // Where a new entry goes: right behind the last one of no greater priority value,
  // with only greater ones behind it, and else, with only greater ones, to the back.
  lemma PrioPlace(s: seq<nat>, prio: map<nat, nat>, t: nat) returns (k: nat)
    requires t in prio && forall u :: u in s ==> u in prio
    ensures k <= |s| && PrioInsert(s, prio, t) == s[..k] + [t] + s[k..]
    ensures forall i :: k <= i < |s| ==> prio[t] < prio[s[i]]
    ensures (0 < k && prio[s[k - 1]] <= prio[t]) || (k == |s| && forall i :: 0 <= i < |s| ==> prio[t] < prio[s[i]])
  {
    var last := LastAtMost(s, prio, prio[t]);
    k := if 0 <= last then last + 1 else |s|;
    if last < 0 {
      assert s[..k] + [t] + s[k..] == s + [t];
    }
  }

  // ---------- first come, first served ----------

  // The entries of one priority, in order.
  function Class(s: seq<nat>, prio: map<nat, nat>, p: nat): seq<nat> {
    if s == [] then []
    else (if s[0] in prio && prio[s[0]] == p then [s[0]] else []) + Class(s[1..], prio, p)
  }

  lemma {:induction false} ClassConcat(a: seq<nat>, b: seq<nat>, prio: map<nat, nat>, p: nat)
    ensures Class(a + b, prio, p) == Class(a, prio, p) + Class(b, prio, p)
  {
    if a == [] {
      assert a + b == b;
    } else {
      assert (a + b)[1..] == a[1..] + b;
      ClassConcat(a[1..], b, prio, p);
    }
  }

  lemma ClassOne(t: nat, prio: map<nat, nat>, p: nat)
    ensures Class([t], prio, p) == if t in prio && prio[t] == p then [t] else []
  {
    assert [t][1..] == [];
  }

  lemma {:induction false} ClassNone(s: seq<nat>, prio: map<nat, nat>, p: nat)
    requires forall i :: 0 <= i < |s| ==> !(s[i] in prio && prio[s[i]] == p)
    ensures Class(s, prio, p) == []
  {
    if s != [] {
      assert forall i :: 0 <= i < |s[1..]| ==> s[1..][i] == s[i + 1];
      ClassNone(s[1..], prio, p);
    }
  }

  lemma {:induction false} ClassHolds(s: seq<nat>, prio: map<nat, nat>, p: nat, x: nat)
    ensures x in Class(s, prio, p) <==> x in s && x in prio && prio[x] == p
  {
    if s != [] {
      assert s == [s[0]] + s[1..];
      ClassHolds(s[1..], prio, p, x);
    }
  }

  lemma {:induction false} ClassDrop(s: seq<nat>, prio: map<nat, nat>, p: nat, t: nat)
    ensures Class(Drop(s, t), prio, p) == Drop(Class(s, prio, p), t)
  {
    if s == [] {
    } else if s[0] == t {
      FirstOut(s, prio, p);
    } else {
      ClassDrop(s[1..], prio, p, t);
      FirstStays(s, prio, p, t);
    }
  }

  lemma FirstOut(s: seq<nat>, prio: map<nat, nat>, p: nat)
    requires s != []
    ensures Class(s[1..], prio, p) == Drop(Class(s, prio, p), s[0])
  {
    var c := Class(s[1..], prio, p);
    if s[0] in prio && prio[s[0]] == p {
      assert ([s[0]] + c)[1..] == c;
    } else {
      ClassHolds(s[1..], prio, p, s[0]);
    }
  }

  lemma FirstStays(s: seq<nat>, prio: map<nat, nat>, p: nat, t: nat)
    requires s != [] && s[0] != t && Class(Drop(s[1..], t), prio, p) == Drop(Class(s[1..], prio, p), t)
    ensures Class(Drop(s, t), prio, p) == Drop(Class(s, prio, p), t)
  {
    hide Class, Drop;
    var x, d := s[0], Drop(s[1..], t);
    DropBehind(x, s[1..], t);
    ClassBehind(x, s[1..], prio, p);
    ClassBehind(x, d, prio, p);
    DropBehind(x, Class(s[1..], prio, p), t);
    assert s == [x] + s[1..];
  }

  lemma DropBehind(x: nat, s: seq<nat>, t: nat)
    requires x != t
    ensures Drop([x] + s, t) == [x] + Drop(s, t)
  {
    assert ([x] + s)[1..] == s;
  }

  lemma ClassBehind(x: nat, s: seq<nat>, prio: map<nat, nat>, p: nat)
    ensures Class([x] + s, prio, p) == if x in prio && prio[x] == p then [x] + Class(s, prio, p) else Class(s, prio, p)
  {
    assert ([x] + s)[1..] == s;
  }

  // Inserting by priority puts an entry behind all of the same priority.
  lemma ClassInsert(s: seq<nat>, prio: map<nat, nat>, p: nat, t: nat)
    requires t in prio && forall u :: u in s ==> u in prio
    ensures Class(PrioInsert(s, prio, t), prio, p) == Class(s, prio, p) + if prio[t] == p then [t] else []
  {
    hide PrioInsert, Class;
    var k := PrioPlace(s, prio, t);
    assert s == s[..k] + s[k..];
    ClassConcat(s[..k], s[k..], prio, p);
    ClassConcat(s[..k] + [t], s[k..], prio, p);
    ClassConcat(s[..k], [t], prio, p);
    ClassOne(t, prio, p);
    if prio[t] == p {
      forall i | 0 <= i < |s[k..]| ensures prio[s[k..][i]] != p {
        assert s[k..][i] == s[k + i];
      }
      ClassNone(s[k..], prio, p);
    }
  }

  // A line of transactions of priority `p` waiting in queue `q`: who comes goes to its
  // end, who leaves leaves it, and nobody else moves.
  function Line(ops: seq<Op>, prio: map<nat, nat>, q: nat, p: nat, line: seq<nat>): seq<nat> {
    if ops == [] then line
    else Line(ops[1..], prio, q, p, LineStep(ops[0], prio, q, p, line))
  }

  function LineStep(op: Op, prio: map<nat, nat>, q: nat, p: nat, line: seq<nat>): seq<nat> {
    match op
    case Dequeue(t) => Drop(line, t)
    case InsertBack(t, r) => if r == q && t in prio && prio[t] == p then line + [t] else line
    case InsertPrio(t, r) => if r == q && t in prio && prio[t] == p then line + [t] else line
    case Move(t, r) => if r == q && t in prio && prio[t] == p then Drop(line, t) + [t] else Drop(line, t)
    case Release(_) => line
    case Acquire => line
  }

  lemma ApplyLine(st: State, prio: map<nat, nat>, op: Op, q: nat, p: nat)
    requires Valid(st) && Enabled(st, prio, op) && q < NUM && q != FREE
    ensures var r := Apply(st, prio, op);
            |r.qs| == NUM && Class(r.qs[q], prio, p) == LineStep(op, prio, q, p, Class(st.qs[q], prio, p))
  {
    hide PrioInsert, Class, Drop;
    match op {
      case Dequeue(t) => Leaves(st, prio, q, p, t);
      case InsertBack(t, r) => Comes(st.qs[q], prio, p, t);
      case InsertPrio(t, r) =>
        if r == q {
          ClassInsert(st.qs[q], prio, p, t);
        }
      case Move(t, r) =>
        Leaves(st, prio, q, p, t);
        Comes(RemoveFrom(st, st.index[t], t).qs[q], prio, p, t);
      case _ =>
    }
  }

  lemma Comes(s: seq<nat>, prio: map<nat, nat>, p: nat, t: nat)
    ensures Class(s + [t], prio, p) == Class(s, prio, p) + if t in prio && prio[t] == p then [t] else []
  {
    ClassConcat(s, [t], prio, p);
    ClassOne(t, prio, p);
  }

  lemma Leaves(st: State, prio: map<nat, nat>, q: nat, p: nat, t: nat)
    requires Valid(st) && q < NUM && t in st.index && st.index[t] < NUM && t in st.qs[st.index[t]]
    ensures Class(RemoveFrom(st, st.index[t], t).qs[q], prio, p) == Drop(Class(st.qs[q], prio, p), t)
  {
    ClassDrop(st.qs[q], prio, p, t);
    ClassHolds(st.qs[q], prio, p, t);
  }

  // Over every run of queue operations, the transactions of one priority stand in a
  // queue in the order they came to it.
  lemma {:induction false} FirstComeFirst(st: State, prio: map<nat, nat>, ops: seq<Op>, q: nat, p: nat)
    requires Valid(st) && AllEnabled(st, prio, ops) && q < NUM && q != FREE
    ensures var r := Run(st, prio, ops);
            |r.qs| == NUM && Class(r.qs[q], prio, p) == Line(ops, prio, q, p, Class(st.qs[q], prio, p))
    decreases |ops|
  {
    if ops != [] {
      hide Valid, Apply, Enabled, Class, LineStep;
      ApplyKeeps(st, prio, ops[0]);
      ApplyLine(st, prio, ops[0], q, p);
      FirstComeFirst(Apply(st, prio, ops[0]), prio, ops[1..], q, p);
    }
  }

  // Who of priority `p` comes to queue `q` in a run, and who leaves it, in order.
  function Came(ops: seq<Op>, prio: map<nat, nat>, q: nat, p: nat): seq<nat> {
    if ops == [] then [] else LineStep(Comer(ops[0]), prio, q, p, []) + Came(ops[1..], prio, q, p)
  }

  function Comer(op: Op): Op { if op.Move? then InsertBack(op.t, op.q) else op }

  ghost function Leaver(st: State, prio: map<nat, nat>, op: Op, q: nat, p: nat): seq<nat>
    requires Valid(st) && Enabled(st, prio, op)
  {
    if (op.Dequeue? || op.Move?) && st.index[op.t] == q && op.t in prio && prio[op.t] == p then [op.t] else []
  }

  ghost function Left(st: State, prio: map<nat, nat>, ops: seq<Op>, q: nat, p: nat): seq<nat>
    requires Valid(st) && AllEnabled(st, prio, ops)
    decreases |ops|
  {
    if ops == [] then []
    else
      ApplyKeeps(st, prio, ops[0]);
      Leaver(st, prio, ops[0], q, p) + Left(Apply(st, prio, ops[0]), prio, ops[1..], q, p)
  }

  // Who leaves queue `q` is always the first in it, as CF_CFDP_StartFirstPending has it.
  ghost predicate FromFront(st: State, prio: map<nat, nat>, ops: seq<Op>, q: nat)
    requires Valid(st) && AllEnabled(st, prio, ops) && q < NUM
    decreases |ops|
  {
    ops == [] ||
    (ApplyKeeps(st, prio, ops[0]);
     ((ops[0].Dequeue? || ops[0].Move?) && st.index[ops[0].t] == q ==> st.qs[q][0] == ops[0].t)
     && FromFront(Apply(st, prio, ops[0]), prio, ops[1..], q))
  }

  lemma ServedStep(st: State, prio: map<nat, nat>, op: Op, q: nat, p: nat)
    requires Valid(st) && Enabled(st, prio, op) && q < NUM && q != FREE
    requires (op.Dequeue? || op.Move?) && st.index[op.t] == q ==> st.qs[q][0] == op.t
    ensures var line := Class(st.qs[q], prio, p);
            line + LineStep(Comer(op), prio, q, p, []) == Leaver(st, prio, op, q, p) + LineStep(op, prio, q, p, line)
  {
    hide Class, Drop;
    var line := Class(st.qs[q], prio, p);
    if op.Dequeue? || op.Move? {
      ClassHolds(st.qs[q], prio, p, op.t);
      if st.index[op.t] == q {
        assert st.qs[q] == [op.t] + st.qs[q][1..];
        ClassBehind(op.t, st.qs[q][1..], prio, p);
        FirstDropped(op.t, Class(st.qs[q][1..], prio, p));
      }
      assert Drop([], op.t) == [];
    }
  }

  lemma FirstDropped(t: nat, s: seq<nat>)
    ensures Drop([t] + s, t) == s
  {
  }

  // So as long as the first one is always taken, over every run: those of one priority
  // that waited and those that came, in that order, are those that left and those that
  // still wait.
  lemma {:induction false} ServedInOrder(st: State, prio: map<nat, nat>, ops: seq<Op>, q: nat, p: nat)
    requires Valid(st) && AllEnabled(st, prio, ops) && q < NUM && q != FREE && FromFront(st, prio, ops, q)
    ensures var r := Run(st, prio, ops);
            && |r.qs| == NUM
            && Class(st.qs[q], prio, p) + Came(ops, prio, q, p)
            == Left(st, prio, ops, q, p) + Class(r.qs[q], prio, p)
    decreases |ops|
  {
    if ops != [] {
      hide Valid, Apply, Enabled, Class, LineStep, Leaver;
      var next := Apply(st, prio, ops[0]);
      ApplyKeeps(st, prio, ops[0]);
      ApplyLine(st, prio, ops[0], q, p);
      ServedStep(st, prio, ops[0], q, p);
      ServedInOrder(next, prio, ops[1..], q, p);
      var line, came, left := Class(st.qs[q], prio, p), Came(ops[1..], prio, q, p), Left(next, prio, ops[1..], q, p);
      var end := Class(Run(next, prio, ops[1..]).qs[q], prio, p);
      Regroup(line, LineStep(Comer(ops[0]), prio, q, p, []), came,
              Leaver(st, prio, ops[0], q, p), Class(next.qs[q], prio, p), left, end);
    }
  }

  lemma Regroup(a: seq<nat>, b: seq<nat>, c: seq<nat>, d: seq<nat>, e: seq<nat>, f: seq<nat>, g: seq<nat>)
    requires a + b == d + e && e + c == f + g
    ensures a + (b + c) == (d + f) + g
  {
    assert a + (b + c) == (a + b) + c;
    assert (d + e) + c == d + (e + c);
  }

  // The free transactions: who is freed goes to the end, the one in front is taken.
  function FreeLine(ops: seq<Op>, line: seq<nat>): seq<nat> {
    if ops == [] then line
    else
      match ops[0]
      case Release(t) => FreeLine(ops[1..], line + [t])
      case Acquire => FreeLine(ops[1..], if line == [] then [] else line[1..])
      case _ => FreeLine(ops[1..], line)
  }

  lemma ApplyFree(st: State, prio: map<nat, nat>, op: Op)
    requires Valid(st) && Enabled(st, prio, op)
    ensures var f := Apply(st, prio, op).qs;
            && |f| == NUM
            && f[FREE] == match op
                          case Release(t) => st.qs[FREE] + [t]
                          case Acquire => st.qs[FREE][1..]
                          case _ => st.qs[FREE]
  {
    hide PrioInsert;
  }

  lemma {:induction false} FreeInOrder(st: State, prio: map<nat, nat>, ops: seq<Op>)
    requires Valid(st) && AllEnabled(st, prio, ops)
    ensures var r := Run(st, prio, ops);
            |r.qs| == NUM && r.qs[FREE] == FreeLine(ops, st.qs[FREE])
    decreases |ops|
  {
    if ops != [] {
      hide Valid, Apply;
      ApplyKeeps(st, prio, ops[0]);
      ApplyFree(st, prio, ops[0]);
      FreeInOrder(Apply(st, prio, ops[0]), prio, ops[1..]);
    }
  }

  // ---------- the channel, updated in place ----------

  class Channel {
    var qs: seq<seq<nat>>
    var qSize: seq<nat>
    var qIndex: map<nat, nat>
    var priority: map<nat, nat>

    ghost function Abs(): State
      reads this
    {
      State(qs, qSize, qIndex)
    }

    constructor ()
      ensures Valid(Abs()) && qs == [[], [], [], [], [], []] && qIndex == map[] && priority == map[]
    {
      qs, qSize, qIndex, priority := [[], [], [], [], [], []], [0, 0, 0, 0, 0, 0], map[], map[];
    }

    method DequeueTransaction(t: nat)
      requires Valid(Abs()) && Enabled(Abs(), priority, Dequeue(t))
      modifies this`qs, this`qSize
      ensures Valid(Abs()) && Abs() == Apply(old(Abs()), priority, Dequeue(t))
    {
      ApplyKeeps(Abs(), priority, Dequeue(t));
      var q := qIndex[t];
      qs := qs[q := Drop(qs[q], t)];
      qSize := qSize[q := qSize[q] - 1];
    }

    method MoveTransaction(t: nat, q: nat)
      requires Valid(Abs()) && Enabled(Abs(), priority, Move(t, q))
      modifies this`qs, this`qSize, this`qIndex
      ensures Valid(Abs()) && Abs() == Apply(old(Abs()), priority, Move(t, q))
    {
      hide Valid;
      ghost var was := Abs();
      ListsSound(was);
      ApplyKeeps(was, priority, Move(t, q));
      DequeueTransaction(t);
      ListsSound(Abs());
      InsertBackEx(q, t);
      qIndex := qIndex[t := q];
    }

    // CF_CList_Traverse_R with CF_PrioSearch: from the back to the first match.
    method PrioSearch(q: nat, p: nat) returns (k: int)
      requires q < |qs| && forall u :: u in qs[q] ==> u in priority
      ensures k == LastAtMost(qs[q], priority, p)
    {
      k := |qs[q]| - 1;
      assert qs[q][..k + 1] == qs[q];
      while 0 <= k && p < priority[qs[q][k]]
        invariant -1 <= k < |qs[q]|
        invariant LastAtMost(qs[q], priority, p) == LastAtMost(qs[q][..k + 1], priority, p)
      {
        assert qs[q][..k + 1][..k] == qs[q][..k];
        k := k - 1;
      }
    }

    // CF_CList_InsertBack_Ex and CF_CList_InsertAfter_Ex
    method InsertBackEx(q: nat, t: nat)
      requires q < |qs| == |qSize|
      modifies this`qs, this`qSize
      ensures qs == old(qs)[q := old(qs)[q] + [t]] && qSize == old(qSize)[q := old(qSize)[q] + 1]
    {
      qs := qs[q := qs[q] + [t]];
      qSize := qSize[q := qSize[q] + 1];
    }

    method InsertAfterEx(q: nat, k: nat, t: nat)
      requires q < |qs| == |qSize| && k < |qs[q]|
      modifies this`qs, this`qSize
      ensures qs == old(qs)[q := old(qs)[q][..k + 1] + [t] + old(qs)[q][k + 1..]]
      ensures qSize == old(qSize)[q := old(qSize)[q] + 1]
    {
      qs := qs[q := qs[q][..k + 1] + [t] + qs[q][k + 1..]];
      qSize := qSize[q := qSize[q] + 1];
    }

    method InsertSortPrio(t: nat, q: nat)
      requires Valid(Abs()) && Enabled(Abs(), priority, InsertPrio(t, q))
      modifies this`qs, this`qSize, this`qIndex
      ensures Valid(Abs()) && Abs() == Apply(old(Abs()), priority, InsertPrio(t, q))
    {
      hide Valid;
      ListsSound(Abs());
      ApplyKeeps(Abs(), priority, InsertPrio(t, q));
      var insertBack := |qs[q]| == 0;
      if !insertBack {
        var k := PrioSearch(q, priority[t]);
        if 0 <= k {
          InsertAfterEx(q, k, t);
        } else {
          insertBack := true;
        }
      }
      if insertBack {
        InsertBackEx(q, t);
      }
      qIndex := qIndex[t := q];
    }

    method FreeTransaction(t: nat)
      requires Valid(Abs()) && Enabled(Abs(), priority, Release(t))
      modifies this`qs, this`qSize, this`qIndex
      ensures Valid(Abs()) && Abs() == Apply(old(Abs()), priority, Release(t))
    {
      ApplyKeeps(Abs(), priority, Release(t));
      qIndex := qIndex[t := 0];
      InsertBackEx(FREE, t);
    }

    method FindUnusedTransaction() returns (found: bool, t: nat)
      requires Valid(Abs())
      modifies this`qs, this`qSize
      ensures Valid(Abs()) && found == (old(qs)[FREE] != [])
      ensures found ==> t == old(qs)[FREE][0] && Abs() == Apply(old(Abs()), priority, Acquire)
      ensures !found ==> Abs() == old(Abs())
    {
      found, t := |qs[FREE]| != 0, 0;
      if found {
        ApplyKeeps(Abs(), priority, Acquire);
        t := qs[FREE][0];
        qs := qs[FREE := Drop(qs[FREE], t)];
        qSize := qSize[FREE := qSize[FREE] - 1];
      }
    }
  }
}
