/** Which transactions a wakeup ticks when the outgoing messages run out, and where the next one goes on. */
module Ticks {
  import opened Cfdp
  import Queues

  // What a pass over a queue did: the transactions ticked, the resume point still
  // not found, whether the channel is blocked, and the resume point recorded.
  datatype Pass = Pass(ticked: seq<nat>, waiting: Option<nat>, blocked: bool, resume: Option<nat>)

  // The transactions that are suspended, that run out of message buffers when
  // ticked, and that are recycled by their tick and so record nothing.
  datatype Outcome = Outcome(suspended: set<nat>, blocking: set<nat>, recycled: set<nat>)

  // CF_CFDP_DoTick and CF_CFDP_CompleteTick for each transaction of the queue.
  function RunPass(q: seq<nat>, waiting: Option<nat>, o: Outcome): Pass {
    if q == [] then Pass([], waiting, false, None)
    else if waiting != None && waiting != Some(q[0]) then RunPass(q[1..], waiting, o)
    else if q[0] in o.suspended then RunPass(q[1..], None, o)
    else if q[0] in o.blocking then Pass([q[0]], None, true, if q[0] in o.recycled then None else Some(q[0]))
    else
      var rest := RunPass(q[1..], None, o);
      rest.(ticked := [q[0]] + rest.ticked)
  }

  class Channel {
    var txBlocked: bool
    var tickResume: Option<nat>

    constructor ()
      ensures !txBlocked && tickResume == None
    {
      txBlocked, tickResume := false, None;
    }

    // CF_CFDP_CompleteTick
    method CompleteTick(t: nat)
      modifies this`tickResume
      ensures tickResume == if txBlocked && old(tickResume) == None then Some(t) else old(tickResume)
    {
      if txBlocked && tickResume == None {
        tickResume := Some(t);
      }
    }

    // One state of CF_CFDP_TickTransactions: the traversal of its queue.
    method TickQueue(q: seq<nat>, resumePoint: Option<nat>, o: Outcome) returns (ticked: seq<nat>, waiting: Option<nat>)
      requires !txBlocked && tickResume == None
      modifies this
      ensures Pass(ticked, waiting, txBlocked, tickResume) == RunPass(q, resumePoint, o)
    {
      ticked, waiting := [], resumePoint;
      var i := 0;
      while i < |q|
        invariant i <= |q| && !txBlocked && tickResume == None
        invariant RunPass(q, resumePoint, o) ==
                    RunPass(q[i..], waiting, o).(ticked := ticked + RunPass(q[i..], waiting, o).ticked)
      {
        ghost var rest := RunPass(q[i..], waiting, o);
        assert q[i..][1..] == q[i + 1..];
        if waiting == None || waiting == Some(q[i]) {
          waiting := None;
          if q[i] !in o.suspended {
            ticked := ticked + [q[i]];
            if q[i] in o.blocking {
              txBlocked := true;
              if q[i] !in o.recycled {
                CompleteTick(q[i]);
              }
              return;
            }
          }
        }
        i := i + 1;
      }
      assert ticked + [] == ticked;
    }

    // The first two states: receiving transactions, then sending ones.
    method TickStateMessages(rx: seq<nat>, tx: seq<nat>, o: Outcome) returns (ticked: seq<nat>)
      modifies this
      ensures var p := RunPass(rx + tx, old(tickResume), o);
              ticked == p.ticked && txBlocked == p.blocked && tickResume == p.resume
    {
      txBlocked := false;
      var resumePoint := tickResume;
      tickResume := None;
      TwoQueues(rx, tx, resumePoint, o);
      NotBlocked(rx, resumePoint, o);
      var more;
      ticked, resumePoint := TickQueue(rx, resumePoint, o);
      if !txBlocked {
        more, resumePoint := TickQueue(tx, resumePoint, o);
        ticked := ticked + more;
      }
    }
  }

  // ---------- two queues are as good as one ----------

  lemma NotBlocked(q: seq<nat>, waiting: Option<nat>, o: Outcome)
    ensures !RunPass(q, waiting, o).blocked ==> RunPass(q, waiting, o).resume == None
  {
  }

  lemma {:induction false} TwoQueues(a: seq<nat>, b: seq<nat>, waiting: Option<nat>, o: Outcome)
    ensures var p := RunPass(a, waiting, o);
            RunPass(a + b, waiting, o) ==
              if p.blocked then p
              else
                var r := RunPass(b, p.waiting, o);
                r.(ticked := p.ticked + r.ticked)
    decreases |a|
  {
    if a == [] {
      assert a + b == b;
    } else {
      assert (a + b)[1..] == a[1..] + b;
      TwoQueues(a[1..], b, waiting, o);
      TwoQueues(a[1..], b, None, o);
    }
  }

  // ---------- what a pass covers ----------

  function Live(q: seq<nat>, suspended: set<nat>): seq<nat> {
    if q == [] then []
    else (if q[0] in suspended then [] else [q[0]]) + Live(q[1..], suspended)
  }

  // The number of transactions up to and with the first one that blocks.
  function Through(q: seq<nat>, o: Outcome): (k: nat)
    ensures k <= |q|
  {
    if q == [] then 0
    else if q[0] !in o.suspended && q[0] in o.blocking then 1
    else 1 + Through(q[1..], o)
  }

  predicate Blocks(q: seq<nat>, o: Outcome) {
    exists i :: 0 <= i < |q| && q[i] !in o.suspended && q[i] in o.blocking
  }

  // A pass that looks for no resume point ticks the live transactions through the
  // first that blocks.
  lemma {:induction false} PassTicks(q: seq<nat>, o: Outcome)
    ensures RunPass(q, None, o).ticked == Live(q[..Through(q, o)], o.suspended)
    decreases |q|
  {
    if q != [] {
      PassTicks(q[1..], o);
      var k := Through(q, o);
      assert q[..k][1..] == q[1..][..k - 1];
      if q[0] !in o.suspended && q[0] in o.blocking {
        assert q[..1][1..] == [];
      }
    }
  }

  lemma BlocksStep(q: seq<nat>, o: Outcome)
    requires q != []
    ensures Blocks(q, o) <==> (q[0] !in o.suspended && q[0] in o.blocking) || Blocks(q[1..], o)
  {
    if i :| 0 <= i < |q[1..]| && q[1..][i] !in o.suspended && q[1..][i] in o.blocking {
      assert q[i + 1] == q[1..][i];
    }
    if i :| 0 <= i < |q| && q[i] !in o.suspended && q[i] in o.blocking && i != 0 {
      assert q[1..][i - 1] == q[i];
    }
  }

  // It is blocked exactly if one of them blocks; that one was ticked last and is
  // where the next pass goes on.
  lemma {:induction false} PassBlocks(q: seq<nat>, o: Outcome)
    ensures var p, k := RunPass(q, None, o), Through(q, o);
            && (p.blocked <==> Blocks(q, o)) && (!p.blocked ==> k == |q|)
            && (p.blocked ==> 0 < k && q[k - 1] !in o.suspended
                              && p.ticked != [] && p.ticked[|p.ticked| - 1] == q[k - 1]
                              && p.resume == if q[k - 1] in o.recycled then None else Some(q[k - 1]))
    decreases |q|
  {
    hide Blocks;
    if q != [] {
      BlocksStep(q, o);
      PassBlocks(q[1..], o);
    } else {
      NoneBlocks(o);
    }
  }

  lemma NoneBlocks(o: Outcome)
    ensures !Blocks([], o)
  {
  }

  // Transactions in front of the resume point are passed over.
  lemma {:induction false} FromResume(q: seq<nat>, i: nat, o: Outcome)
    requires i < |q| && Queues.NoRepeats(q)
    ensures RunPass(q, Some(q[i]), o) == RunPass(q[i..], None, o)
    decreases i
  {
    if i != 0 {
      assert q[1..][i - 1] == q[i] && q[1..][i - 1..] == q[i..];
      assert forall m, n :: 0 <= m < n < |q[1..]| ==> q[1..][m] != q[1..][n];
      FromResume(q[1..], i - 1, o);
    } else {
      assert q[0..] == q;
    }
  }

  // A resumed pass ticks exactly the live transactions from there through the
  // first that blocks, and is blocked exactly if there is one.
  lemma ResumedPass(q: seq<nat>, i: nat, o: Outcome)
    requires i < |q| && Queues.NoRepeats(q)
    ensures var p, k := RunPass(q, Some(q[i]), o), i + Through(q[i..], o);
            && k <= |q| && p.ticked == Live(q[i..k], o.suspended)
            && (p.blocked <==> Blocks(q[i..], o)) && (!p.blocked ==> k == |q|)
            && (p.blocked ==> i < k && q[k - 1] !in o.suspended
                              && p.ticked != [] && p.ticked[|p.ticked| - 1] == q[k - 1]
                              && p.resume == if q[k - 1] in o.recycled then None else Some(q[k - 1]))
  {
    hide RunPass, Through, Blocks, Live, Queues.NoRepeats;
    FromResume(q, i, o);
    PassTicks(q[i..], o);
    PassBlocks(q[i..], o);
    var k := i + Through(q[i..], o);
    assert q[i..][..k - i] == q[i..k];
  }

  // If the transaction at the resume point has left the queues, nobody is ticked
  // at all in that wakeup; the one after it starts from the front again.
  lemma {:induction false} LostResumePoint(q: seq<nat>, x: nat, o: Outcome)
    ensures x !in q ==> RunPass(q, Some(x), o) == Pass([], Some(x), false, None)
  {
    if q != [] {
      LostResumePoint(q[1..], x, o);
    }
  }

  // ---------- consecutive passes ----------

  // Wakeups as long as the one before was blocked.
  function Passes(q: seq<nat>, waiting: Option<nat>, os: seq<Outcome>): seq<Pass>
    decreases |os|
  {
    if os == [] then []
    else
      var p := RunPass(q, waiting, os[0]);
      [p] + (if p.blocked then Passes(q, p.resume, os[1..]) else [])
  }

  // All that was ticked, a transaction that blocked counted once with its second tick left out.
  function Joined(ps: seq<Pass>): seq<nat> {
    if ps == [] then []
    else
      var rest := Joined(ps[1..]);
      ps[0].ticked + (if rest == [] then [] else rest[1..])
  }

  // Over an unchanged queue, with the same transactions suspended throughout,
  // blocked passes cover it in order without leaving anyone out, and tick nobody
  // twice but the one that blocked; `k` is how far they get, all the way if the
  // last pass was not blocked.
  lemma {:induction false} PassesCover(q: seq<nat>, i: nat, os: seq<Outcome>, susp: set<nat>) returns (k: nat)
    requires i < |q| && Queues.NoRepeats(q) && os != []
    requires forall n :: 0 <= n < |os| ==> os[n].suspended == susp && os[n].recycled == {}
    requires q[i] !in susp
    ensures i < k <= |q|
    ensures var ps := Passes(q, Some(q[i]), os);
            && ps != [] && Joined(ps) == Live(q[i..k], susp) && Joined(ps) != [] && Joined(ps)[0] == q[i]
            && (!ps[|ps| - 1].blocked ==> k == |q|)
    decreases |os|
  {
    hide RunPass, Through, Blocks, Live, Joined, Queues.NoRepeats;
    var p := RunPass(q, Some(q[i]), os[0]);
    ResumedPass(q, i, os[0]);
    PassTicks(q[i..], os[0]);
    PassBlocks(q[i..], os[0]);
    k := i + Through(q[i..], os[0]);
    FirstTicked(q, i, k, susp);
    if p.blocked && os[1..] != [] {
      var j := k;
      k := PassesCover(q, j - 1, os[1..], susp);
      MorePasses(q, i, j, k, susp, os);
    } else {
      OnePass(q, Some(q[i]), os);
    }
  }

  // One more pass in front of passes that go on where it ended.
  lemma MorePasses(q: seq<nat>, i: nat, j: nat, k: nat, susp: set<nat>, os: seq<Outcome>)
    requires i < j <= k <= |q| && os != [] && q[i] !in susp && q[j - 1] !in susp
    requires var p := RunPass(q, Some(q[i]), os[0]);
             p.blocked && p.ticked == Live(q[i..j], susp) && p.resume == Some(q[j - 1])
    requires var rest := Passes(q, Some(q[j - 1]), os[1..]);
             rest != [] && Joined(rest) == Live(q[j - 1..k], susp)
    ensures var ps := Passes(q, Some(q[i]), os);
            && ps != [] && Joined(ps) == Live(q[i..k], susp) && Joined(ps) != [] && Joined(ps)[0] == q[i]
            && ps[|ps| - 1] == Passes(q, Some(q[j - 1]), os[1..])[|Passes(q, Some(q[j - 1]), os[1..])| - 1]
  {
    hide RunPass, Live, Joined;
    var ps, rest := Passes(q, Some(q[i]), os), Passes(q, Some(q[j - 1]), os[1..]);
    assert ps == [RunPass(q, Some(q[i]), os[0])] + rest;
    assert ps[1..] == rest;
    JoinedStep(ps);
    LiveJoin(q, i, j, k, susp);
    FirstTicked(q, i, k, susp);
  }

  lemma OnePass(q: seq<nat>, waiting: Option<nat>, os: seq<Outcome>)
    requires os != [] && (os[1..] == [] || !RunPass(q, waiting, os[0]).blocked)
    ensures Passes(q, waiting, os) == [RunPass(q, waiting, os[0])]
    ensures Joined(Passes(q, waiting, os)) == RunPass(q, waiting, os[0]).ticked
  {
    var ps := Passes(q, waiting, os);
    assert ps[1..] == [];
    assert ps[0].ticked + [] == ps[0].ticked;
  }

  lemma JoinedStep(ps: seq<Pass>)
    requires ps != []
    ensures Joined(ps) == ps[0].ticked + (if Joined(ps[1..]) == [] then [] else Joined(ps[1..])[1..])
  {
  }

  lemma FirstTicked(q: seq<nat>, i: nat, k: nat, susp: set<nat>)
    requires i < k <= |q| && q[i] !in susp
    ensures Live(q[i..k], susp) == [q[i]] + Live(q[i + 1..k], susp)
  {
    assert q[i..k][1..] == q[i + 1..k];
  }

  lemma {:induction false} LiveConcat(a: seq<nat>, b: seq<nat>, susp: set<nat>)
    ensures Live(a + b, susp) == Live(a, susp) + Live(b, susp)
  {
    if a == [] {
      assert a + b == b;
    } else {
      assert (a + b)[1..] == a[1..] + b;
      LiveConcat(a[1..], b, susp);
    }
  }

  // Two stretches that share the transaction at j - 1.
  lemma LiveJoin(q: seq<nat>, i: nat, j: nat, k: nat, susp: set<nat>)
    requires i < j <= k <= |q| && q[j - 1] !in susp
    ensures Live(q[j - 1..k], susp) != []
    ensures Live(q[i..k], susp) == Live(q[i..j], susp) + Live(q[j - 1..k], susp)[1..]
  {
    FirstTicked(q, j - 1, k, susp);
    assert q[i..k] == q[i..j] + q[j..k];
    LiveConcat(q[i..j], q[j..k], susp);
  }
}
