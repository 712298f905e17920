/**
 The pool of chunk lists of a channel: lists are handed out from the front, and come
 back at the end as their holders left them. Nothing ever empties one.
 */
module ListPool {
  import opened Cfdp
  import opened Crc
  import opened ChunkSpec
  import ChunkLists
  import History
  import Queues
  import Rx = RxSpec
  import RR = RxRuns
  import RC = RxChecksum

  // The lists that wait, which list each transaction holds, and what is in each. Lists
  // and transactions are numbers.
  datatype Pool = Pool(free: seq<nat>, held: map<nat, nat>, lists: seq<Handed>)

  // CF_CFDP_InitEngine, for receiving transactions: the only time a list is emptied.
  function Fresh(caps: seq<nat>): Pool { Pool(History.Count(|caps|), map[], Empties(caps)) }

  function Empties(caps: seq<nat>): (r: seq<Handed>)
    ensures |r| == |caps| && forall k :: 0 <= k < |caps| ==> r[k] == Handed(caps[k], [])
  {
    if caps == [] then [] else Empties(caps[..|caps| - 1]) + [Handed(caps[|caps| - 1], [])]
  }

  datatype Op =
    | Take(t: nat)                       // CF_CFDP_AllocChunkList
    | Give(t: nat, left: seq<Chunk>)     // CF_CFDP_RecycleTransaction

  // ---------- what a receiving transaction may leave in its list ----------

  ghost predicate AllValid(es: seq<RR.Event>) { forall k :: 0 <= k < |es| ==> RR.ValidEvent(es[k]) }

  // Some run of some transaction that was handed `list` ends with these entries in it.
  ghost predicate Leaves(cfg: Config, list: Handed, left: seq<Chunk>)
    requires 0 < cfg.crcBlock
  {
    list.Proper() &&
    exists unack, stale, createOk, previous, es :: RunLeaves(cfg, list, unack, stale, createOk, previous, es, left)
  }

  ghost predicate RunLeaves(cfg: Config, list: Handed, unack: bool, stale: Status, createOk: bool,
                            previous: Option<seq<uint8>>, es: seq<RR.Event>, left: seq<Chunk>)
    requires 0 < cfg.crcBlock && list.Proper()
  {
    RR.SetupList(cfg, unack, Some(list), stale, createOk, previous);
    AllValid(es) && RR.Run(cfg, Rx.Setup(cfg, unack, Some(list), stale, createOk, previous), es).chunks == left
  }

  // Over every run of a receiver its list stays proper and never remembers less.
  lemma {:induction false} RunGrows(cfg: Config, st: Rx.Rx, es: seq<RR.Event>)
    requires 0 < st.cap && WellFormed(st.cap, st.chunks) && 0 < cfg.crcBlock && AllValid(es)
    ensures Total(st.chunks) <= Total(RR.Run(cfg, st, es).chunks)
    decreases |es|
  {
    if es != [] {
      hide RR.Step, Add, Total;
      RunGrows(cfg, st, es[..|es| - 1]);
      var last, e := RR.Run(cfg, st, es[..|es| - 1]), es[|es| - 1];
      RC.ListSeparated(last);
      RR.StepKeepsChunks(cfg, last, e);
      if RR.Step(cfg, last, e).chunks != last.chunks {
        AddNeverLosesGround(last.cap, last.chunks, Chunk(e.pkt.pdu.offset, |e.pkt.pdu.data|));
      }
    }
  }

  lemma LeavesGrown(cfg: Config, list: Handed, left: seq<Chunk>)
    requires 0 < cfg.crcBlock && Leaves(cfg, list, left)
    ensures WellFormed(list.cap, left) && (list.chunks != [] ==> left != [])
  {
    hide RR.Run, Rx.Setup;
    var unack, stale, createOk, previous, es :| RunLeaves(cfg, list, unack, stale, createOk, previous, es, left);
    RR.SetupList(cfg, unack, Some(list), stale, createOk, previous);
    RunGrows(cfg, Rx.Setup(cfg, unack, Some(list), stale, createOk, previous), es);
    if list.chunks != [] {
      assert 0 < list.chunks[0].size;
    }
  }

  // Any range at all can be left in an empty list.
  lemma OneRangeLeft(cfg: Config, cap: nat, c: Chunk)
    requires 0 < cfg.crcBlock && 0 < cap && Addable(c)
    ensures Leaves(cfg, Handed(cap, []), [c])
  {
    var list, data, env := Handed(cap, []), Zeros(c.size), Rx.Env(true, c.size, 0, true, true);
    var e := RR.Arrive(Packet(true, FileData(c.offset, data)), env);
    var start := Rx.Setup(cfg, true, Some(list), ST_NO_ERROR, true, None);
    RR.SetupList(cfg, true, Some(list), ST_NO_ERROR, true, None);
    OneRangeAdded(cfg, start, c);
    assert [e][..0] == [];
    assert RR.Run(cfg, start, [e]) == RR.Step(cfg, RR.Run(cfg, start, []), e);
    assert RunLeaves(cfg, list, true, ST_NO_ERROR, true, None, [e], [c]);
  }

  lemma OneRangeAdded(cfg: Config, st: Rx.Rx, c: Chunk)
    requires 0 < st.cap && st.chunks == [] && Addable(c) && st.phase == Rx.R1 && !st.reliable && st.Ok()
    requires st.disk.fdOpen
    ensures var p := Packet(true, FileData(c.offset, Zeros(c.size)));
            Rx.Recv(cfg, st, p, Rx.Env(true, c.size, 0, true, true)).chunks == [c]
  {
    hide WriteAt;
    assert Add(st.cap, [], c) == [c];
  }

  // ---------- the pool ----------

  // What cannot be changes nothing.
  ghost function Apply(cfg: Config, p: Pool, op: Op): Pool
    requires 0 < cfg.crcBlock
  {
    match op
    case Take(t) =>
      if t in p.held || p.free == [] then p else p.(free := p.free[1..], held := p.held[t := p.free[0]])
    case Give(t, left) =>
      if t !in p.held || |p.lists| <= p.held[t] || !Leaves(cfg, p.lists[p.held[t]], left) then p
      else
        p.(free := p.free + [p.held[t]], held := p.held - {t},
           lists := p.lists[p.held[t] := Handed(p.lists[p.held[t]].cap, left)])
  }

  ghost function Run(cfg: Config, p: Pool, ops: seq<Op>): Pool
    requires 0 < cfg.crcBlock
    decreases |ops|
  {
    if ops == [] then p else Apply(cfg, Run(cfg, p, ops[..|ops| - 1]), ops[|ops| - 1])
  }

  ghost predicate Valid(p: Pool, caps: seq<nat>) {
    && |p.lists| == |caps| && |p.free| + |p.held| == |caps|
    && (forall h :: 0 <= h < |caps| ==> p.lists[h].cap == caps[h] && p.lists[h].Proper())
    && Queues.NoRepeats(p.free) && (forall h :: h in p.free ==> h < |caps|)
    && (forall t :: t in p.held ==> p.held[t] < |caps| && p.held[t] !in p.free)
    && (forall t, u :: t in p.held && u in p.held && t != u ==> p.held[t] != p.held[u])
  }

  lemma FreshValid(caps: seq<nat>)
    requires forall k :: 0 <= k < |caps| ==> 0 < caps[k]
    ensures Valid(Fresh(caps), caps)
  {
  }

  lemma TakeValid(cfg: Config, p: Pool, t: nat, caps: seq<nat>)
    requires 0 < cfg.crcBlock && Valid(p, caps)
    ensures Valid(Apply(cfg, p, Take(t)), caps)
  {
    hide Handed.Proper, Queues.NoRepeats;
    if t !in p.held && p.free != [] {
      assert p.free[0] in p.free;
      assert p.free[..0] + p.free[1..] == p.free[1..];
      History.OneLess(p.free, 0);
    }
  }

  lemma GiveValid(cfg: Config, p: Pool, t: nat, left: seq<Chunk>, caps: seq<nat>)
    requires 0 < cfg.crcBlock && Valid(p, caps)
    ensures Valid(Apply(cfg, p, Give(t, left)), caps)
  {
    hide Leaves, Queues.NoRepeats;
    if t in p.held && Leaves(cfg, p.lists[p.held[t]], left) {
      var h := p.held[t];
      LeavesGrown(cfg, p.lists[h], left);
      assert Handed(p.lists[h].cap, left).Proper();
      assert p.free[..|p.free|] + [h] + p.free[|p.free|..] == p.free + [h];
      History.OneMore(p.free, |p.free|, h);
      History.UsedLess(p.held, t);
    }
  }

  // Over every run each list is with one transaction or waits, once, none is lost, and
  // every list that is handed out is sorted, separated and within its room.
  lemma {:induction false} RunValid(cfg: Config, caps: seq<nat>, ops: seq<Op>)
    requires 0 < cfg.crcBlock && forall k :: 0 <= k < |caps| ==> 0 < caps[k]
    ensures Valid(Run(cfg, Fresh(caps), ops), caps)
    decreases |ops|
  {
    hide Apply, Valid;
    if ops == [] {
      FreshValid(caps);
    } else {
      RunValid(cfg, caps, ops[..|ops| - 1]);
      var p := Run(cfg, Fresh(caps), ops[..|ops| - 1]);
      match ops[|ops| - 1] {
        case Take(t) => TakeValid(cfg, p, t, caps);
        case Give(t, left) => GiveValid(cfg, p, t, left, caps);
      }
    }
  }

  // ---------- entries outlive their transaction ----------

  ghost predicate Stained(p: Pool, h: nat) { h < |p.lists| && p.lists[h].chunks != [] }

  lemma StainStays(cfg: Config, p: Pool, op: Op, h: nat)
    requires 0 < cfg.crcBlock && Stained(p, h)
    ensures Stained(Apply(cfg, p, op), h)
  {
    hide Leaves;
    if op.Give? && op.t in p.held && p.held[op.t] == h && Leaves(cfg, p.lists[h], op.left) {
      LeavesGrown(cfg, p.lists[h], op.left);
    }
  }

  // A list that is not empty once never is again, over every run.
  lemma {:induction false} StainedForGood(cfg: Config, p: Pool, ops: seq<Op>, h: nat)
    requires 0 < cfg.crcBlock && Stained(p, h)
    ensures Stained(Run(cfg, p, ops), h)
    decreases |ops|
  {
    hide Apply, Stained;
    if ops != [] {
      StainedForGood(cfg, p, ops[..|ops| - 1], h);
      StainStays(cfg, Run(cfg, p, ops[..|ops| - 1]), ops[|ops| - 1], h);
    }
  }

  // A holder of list `h` left entries in it.
  ghost predicate Leaving(cfg: Config, p: Pool, op: Op, h: nat)
    requires 0 < cfg.crcBlock
  {
    && op.Give? && op.t in p.held && p.held[op.t] == h && h < |p.lists|
    && Leaves(cfg, p.lists[h], op.left) && op.left != []
  }

  ghost predicate LeftOn(cfg: Config, p: Pool, ops: seq<Op>, h: nat)
    requires 0 < cfg.crcBlock
  {
    exists k :: 0 <= k < |ops| && Leaving(cfg, Run(cfg, p, ops[..k]), ops[k], h)
  }

  lemma LeftOnBack(cfg: Config, p: Pool, ops: seq<Op>, h: nat)
    requires 0 < cfg.crcBlock && ops != []
    ensures var front := ops[..|ops| - 1];
            LeftOn(cfg, p, ops, h) <==> LeftOn(cfg, p, front, h) || Leaving(cfg, Run(cfg, p, front), ops[|ops| - 1], h)
  {
    hide Run, Leaving;
    var front := ops[..|ops| - 1];
    assert forall k :: 0 <= k < |ops| ==> ops[..k] == if k < |front| then front[..k] else front;
    if LeftOn(cfg, p, ops, h) && !Leaving(cfg, Run(cfg, p, front), ops[|ops| - 1], h) {
      var k :| 0 <= k < |ops| && Leaving(cfg, Run(cfg, p, ops[..k]), ops[k], h);
      assert k < |front| && front[k] == ops[k] && front[..k] == ops[..k];
    }
    if LeftOn(cfg, p, front, h) {
      var k :| 0 <= k < |front| && Leaving(cfg, Run(cfg, p, front[..k]), front[k], h);
      assert front[k] == ops[k] && front[..k] == ops[..k];
    }
  }

  lemma StainedStep(cfg: Config, p: Pool, op: Op, h: nat)
    requires 0 < cfg.crcBlock && h < |p.lists|
    ensures |Apply(cfg, p, op).lists| == |p.lists|
    ensures Stained(Apply(cfg, p, op), h) <==> Stained(p, h) || Leaving(cfg, p, op, h)
  {
    hide Leaves;
    if Stained(p, h) {
      StainStays(cfg, p, op, h);
    }
  }

  lemma {:induction false} StainedIff(cfg: Config, caps: seq<nat>, ops: seq<Op>, h: nat)
    requires 0 < cfg.crcBlock && h < |caps|
    ensures |Run(cfg, Fresh(caps), ops).lists| == |caps|
    ensures Stained(Run(cfg, Fresh(caps), ops), h) <==> LeftOn(cfg, Fresh(caps), ops, h)
    decreases |ops|
  {
    hide Apply, Stained, Leaving;
    if ops == [] {
      FreshUnstained(caps, h);
    } else {
      StainedIff(cfg, caps, ops[..|ops| - 1], h);
      LeftOnBack(cfg, Fresh(caps), ops, h);
      StainedStep(cfg, Run(cfg, Fresh(caps), ops[..|ops| - 1]), ops[|ops| - 1], h);
    }
  }

  lemma FreshUnstained(caps: seq<nat>, h: nat)
    requires h < |caps|
    ensures !Stained(Fresh(caps), h)
  {
  }

  // The list that a new transaction is handed.
  ghost function HandedOut(p: Pool): Option<Handed> {
    if p.free != [] && p.free[0] < |p.lists| then Some(p.lists[p.free[0]]) else None
  }

  // Over every run: a new receiving transaction is handed the list that has waited
  // longest, usable as it is; and that list is empty if and only if no transaction that
  // held it before left entries in it.
  lemma EmptyIff(cfg: Config, caps: seq<nat>, ops: seq<Op>, unack: bool, stale: Status, createOk: bool,
                 previous: Option<seq<uint8>>)
    requires 0 < cfg.crcBlock && forall k :: 0 <= k < |caps| ==> 0 < caps[k]
    ensures var p := Run(cfg, Fresh(caps), ops);
            && Usable(HandedOut(p)) && (p.free != [] ==> HandedOut(p).Some?)
            && (p.free != [] ==>
                  (Rx.Setup(cfg, unack, HandedOut(p), stale, createOk, previous).chunks == []
                   <==> !LeftOn(cfg, Fresh(caps), ops, p.free[0])))
  {
    hide Run, LeftOn;
    RunValid(cfg, caps, ops);
    var p := Run(cfg, Fresh(caps), ops);
    if p.free != [] {
      assert p.free[0] in p.free;
      assert p.lists[p.free[0]].Proper();
      StainedIff(cfg, caps, ops, p.free[0]);
      RR.SetupList(cfg, unack, HandedOut(p), stale, createOk, previous);
    }
  }

  // ---------- transactions one after the other ----------

  // Each takes the first list, and leaves what is given here.
  function InTurn(lefts: seq<seq<Chunk>>): seq<Op> {
    if lefts == [] then [] else InTurn(lefts[..|lefts| - 1]) + [Take(0), Give(0, lefts[|lefts| - 1])]
  }

  // The first lists are used up in turn; those not used yet come first.
  ghost predicate Used(p: Pool, caps: seq<nat>, n: nat) {
    && p.held == map[] && |p.lists| == |p.free| == |caps| && n <= |caps|
    && (forall k :: 0 <= k < |caps| - n ==> p.free[k] == n + k)
    && (forall h :: 0 <= h < |caps| ==> (p.lists[h].chunks != [] <==> h < n))
  }

  lemma OneTurn(cfg: Config, p: Pool, caps: seq<nat>, n: nat, left: seq<Chunk>)
    requires 0 < cfg.crcBlock && Used(p, caps, n) && n < |caps| && left != [] && Leaves(cfg, p.lists[n], left)
    ensures Used(Apply(cfg, Apply(cfg, p, Take(0)), Give(0, left)), caps, n + 1)
  {
    hide Leaves;
    var a := Apply(cfg, p, Take(0));
    assert a.held == map[0 := n] && a.lists == p.lists && a.free == p.free[1..];
    var b := Apply(cfg, a, Give(0, left));
    assert b.held == map[] && b.free == p.free[1..] + [n];
  }

  lemma RunTwo(cfg: Config, p: Pool, ops: seq<Op>, a: Op, b: Op)
    requires 0 < cfg.crcBlock
    ensures Run(cfg, p, ops + [a, b]) == Apply(cfg, Apply(cfg, Run(cfg, p, ops), a), b)
  {
    hide Apply;
    var all := ops + [a, b];
    assert all[..|all| - 1] == ops + [a] && (ops + [a])[..|ops|] == ops;
  }

  // What each of them leaves is what some run of a receiver leaves in the next list,
  // and not nothing.
  ghost predicate Leavable(cfg: Config, caps: seq<nat>, lefts: seq<seq<Chunk>>)
    requires 0 < cfg.crcBlock && |lefts| <= |caps|
  {
    forall k :: 0 <= k < |lefts| ==> lefts[k] != [] && Leaves(cfg, Handed(caps[k], []), lefts[k])
  }

  lemma {:induction false} TurnsUse(cfg: Config, caps: seq<nat>, lefts: seq<seq<Chunk>>)
    requires 0 < cfg.crcBlock && |lefts| <= |caps| && Leavable(cfg, caps, lefts)
    ensures var p := Run(cfg, Fresh(caps), InTurn(lefts));
            Used(p, caps, |lefts|) && forall h :: |lefts| <= h < |caps| ==> p.lists[h] == Handed(caps[h], [])
    decreases |lefts|
  {
    hide Leaves, Run;
    if lefts == [] {
      RunNone(cfg, Fresh(caps));
    } else {
      var front, left := lefts[..|lefts| - 1], lefts[|lefts| - 1];
      TurnsUse(cfg, caps, front);
      var p := Run(cfg, Fresh(caps), InTurn(front));
      OneTurn(cfg, p, caps, |front|, left);
      RunTwo(cfg, Fresh(caps), InTurn(front), Take(0), Give(0, left));
    }
  }

  lemma RunNone(cfg: Config, p: Pool)
    requires 0 < cfg.crcBlock
    ensures Run(cfg, p, []) == p
  {
  }

  lemma {:induction false} RunConcat(cfg: Config, p: Pool, a: seq<Op>, b: seq<Op>)
    requires 0 < cfg.crcBlock
    ensures Run(cfg, p, a + b) == Run(cfg, Run(cfg, p, a), b)
    decreases |b|
  {
    hide Apply;
    if b == [] {
      assert a + b == a;
    } else {
      assert (a + b)[..|a + b| - 1] == a + b[..|b| - 1];
      RunConcat(cfg, p, a, b[..|b| - 1]);
    }
  }

  // Once as many receiving transactions as there are lists have remembered something,
  // one after the other, no receiver is ever handed an empty list again, whatever else
  // happens.
  lemma NeverEmptyAgain(cfg: Config, caps: seq<nat>, lefts: seq<seq<Chunk>>, more: seq<Op>)
    requires 0 < cfg.crcBlock && (forall k :: 0 <= k < |caps| ==> 0 < caps[k])
    requires |lefts| == |caps| && Leavable(cfg, caps, lefts)
    ensures var p := Run(cfg, Fresh(caps), InTurn(lefts) + more);
            HandedOut(p).Some? ==> HandedOut(p).value.chunks != []
  {
    hide Run, InTurn, Leavable, Valid;
    TurnsUse(cfg, caps, lefts);
    RunConcat(cfg, Fresh(caps), InTurn(lefts), more);
    RunValid(cfg, caps, InTurn(lefts) + more);
    var p := Run(cfg, Fresh(caps), InTurn(lefts) + more);
    if HandedOut(p).Some? {
      ListCount(p, caps);
      StainedForGood(cfg, Run(cfg, Fresh(caps), InTurn(lefts)), more, p.free[0]);
    }
  }

  lemma ListCount(p: Pool, caps: seq<nat>)
    requires Valid(p, caps)
    ensures |p.lists| == |caps|
  {
  }

  // ---------- the pool, updated in place ----------

  class Chunks {
    var free: seq<ChunkLists.ChunkList>

    constructor (lists: seq<ChunkLists.ChunkList>)
      ensures free == lists
    {
      free := lists;
    }

    // The list at the front, untouched, if there is one.
    method FindUnusedChunks() returns (list: ChunkLists.ChunkList?)
      modifies this`free
      ensures old(free) == [] ==> list == null && free == []
      ensures old(free) != [] ==> list == old(free)[0] && free == old(free)[1..]
    {
      if free == [] {
        list := null;
      } else {
        list := free[0];
        free := free[1..];
      }
    }

    // The list part of CF_CFDP_RecycleTransaction.
    method GiveBack(list: ChunkLists.ChunkList?)
      modifies this`free
      ensures free == if list == null then old(free) else old(free) + [list]
    {
      if list != null {
        free := free + [list];
      }
    }
  }
}
