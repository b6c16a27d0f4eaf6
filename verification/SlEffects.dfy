/** What each operation of the policy does to its thread and to nobody else, and a thread's priority over
    whole runs. */
module SlEffects {
  import opened SlModel
  import opened SlInvariant

  // ----- single operations -----

  /** All threads but t are as they were, in the same order in the same queues. */
  ghost predicate OthersSame(s: Sl, s': Sl, t: nat) {
    && |s'.queues| == |s.queues|
    && (forall u :: u != t ==> (u in s'.thd <==> u in s.thd) && (u in s.thd ==> s'.thd[u] == s.thd[u]))
    && forall i :: 0 <= i < |s.queues| ==> Except(s'.queues[i], t) == Except(s.queues[i], t)
  }

  /** Thread t is the last of queue i and in no other. */
  ghost predicate LastIn(s: Sl, t: nat, i: nat) {
    && i < |s.queues| && |s.queues[i]| > 0 && s.queues[i][|s.queues[i]| - 1] == t
    && forall k :: 0 <= k < |s.queues| && k != i ==> t !in s.queues[k]
  }

  lemma {:induction false} ExceptAppend(q: seq<nat>, t: nat)
    ensures Except(q + [t], t) == Except(q, t)
  {
    if |q| > 0 {
      assert (q + [t])[1..] == q[1..] + [t];
      ExceptAppend(q[1..], t);
    } else {
      assert q + [t] == [t];
      assert Except([t], t) == [] + Except([t][1..], t);
    }
  }

  lemma ExceptTwice(q: seq<nat>, t: nat)
    ensures Except(Except(q, t), t) == Except(q, t)
  {
    ExceptIs(q, t);
    ExceptIs(Except(q, t), t);
  }

  lemma QueuesSame(s: Sl, a: Op, i: nat)
    requires Inv(s) && Allowed(s, a) && i < NPRIOS
    ensures Except(Next(s, a).queues[i], a.t) == Except(s.queues[i], a.t)
  {
    var q := s.queues[i];
    FirstInFirstOut(s, a, i);
    ExceptTwice(q, a.t);
    ExceptAppend(Except(q, a.t), a.t);
  }

  /** An operation concerns its own thread only. */
  lemma OthersUntouched(s: Sl, a: Op)
    requires Inv(s) && Allowed(s, a)
    ensures OthersSame(s, Next(s, a), a.t)
  {
    forall i | 0 <= i < NPRIOS ensures Except(Next(s, a).queues[i], a.t) == Except(s.queues[i], a.t) {
      QueuesSame(s, a, i);
    }
  }

  lemma Requeued(s: Sl, t: nat, i: nat)
    requires |s.queues| == NPRIOS && i < NPRIOS
    ensures LastIn(s.(queues := Enqueue(Dequeue(s.queues, t), i, t)), t, i)
  {
    var qs := Dequeue(s.queues, t);
    forall k | 0 <= k < NPRIOS ensures t !in qs[k] { ExceptIs(s.queues[k], t); }
  }

  lemma Unqueued(s: Sl, t: nat)
    ensures !Queued(s.(queues := Dequeue(s.queues, t)), t)
  {
    var s' := s.(queues := Dequeue(s.queues, t));
    forall k | 0 <= k < |s'.queues| ensures t !in s'.queues[k] { ExceptIs(s.queues[k], t); }
  }

  /** A new thread is RUNNABLE, at the lowest priority, and in no queue. */
  lemma Creates(s: Sl, t: nat)
    requires Inv(s) && Allowed(s, Create(t))
    ensures var s' := Next(s, Create(t));
            && t in s'.thd && s'.thd[t].state == Runnable && s'.thd[t].prio == 31 && !s'.thd[t].placed
            && !Queued(s', t) && OthersSame(s, s', t)
  {
    OthersUntouched(s, Create(t));
    forall i | 0 <= i < NPRIOS ensures t !in s.queues[i] { assert QueueOk(s, i); }
  }

  /** Setting a priority gives the thread that priority and puts it at the end of the queue for it. */
  lemma SetsPriority(s: Sl, t: nat, v: nat)
    requires Inv(s) && Allowed(s, ParamSet(t, v))
    ensures var s' := Next(s, ParamSet(t, v));
            && t in s'.thd && s'.thd[t].prio == v && s'.thd[t].placed && s'.thd[t].state == s.thd[t].state
            && LastIn(s', t, v) && OthersSame(s, s', t)
  {
    OthersUntouched(s, ParamSet(t, v));
    Requeued(s, t, v);
  }

  /** A block uses up a wakeup that came before it, or else takes the thread out of its queue. */
  lemma Blocks(s: Sl, t: nat)
    requires Inv(s) && Allowed(s, Block(t))
    ensures var s' := Next(s, Block(t));
            && t in s'.thd && s'.thd[t].prio == s.thd[t].prio && OthersSame(s, s', t)
            && (s.thd[t].state == Woken ==> s'.thd[t].state == Runnable && s'.queues == s.queues)
            && (s.thd[t].state == Runnable ==> s'.thd[t].state == Blocked && !Queued(s', t))
  {
    OthersUntouched(s, Block(t));
    Unqueued(s, t);
  }

  /** A wakeup is remembered, or else puts a BLOCKED thread at the end of its queue. */
  lemma Wakes(s: Sl, t: nat)
    requires Inv(s) && Allowed(s, Wakeup(t))
    ensures var s' := Next(s, Wakeup(t));
            && (t !in s.thd ==> s' == s)
            && (t in s.thd ==>
                  && t in s'.thd && s'.thd[t].prio == s.thd[t].prio && OthersSame(s, s', t)
                  && (s.thd[t].state == Runnable ==> s'.thd[t].state == Woken && s'.queues == s.queues)
                  && (s.thd[t].state == Blocked ==> s'.thd[t].state == Runnable && LastIn(s', t, s.thd[t].prio)))
  {
    OthersUntouched(s, Wakeup(t));
    if t in s.thd && s.thd[t].state == Blocked {
      DequeueNothing(s, t);
      Requeued(s, t, s.thd[t].prio);
    }
  }

  /** A yield puts the thread at the end of its queue. */
  lemma YieldsTurn(s: Sl, t: nat)
    requires Inv(s) && Allowed(s, Yield(t))
    ensures var s' := Next(s, Yield(t));
            s'.thd == s.thd && LastIn(s', t, s.thd[t].prio) && OthersSame(s, s', t)
  {
    OthersUntouched(s, Yield(t));
    Requeued(s, t, s.thd[t].prio);
  }

  // ----- priorities over runs -----

  /** The priority that the last `sl_thd_param_set` on t asked for, p without one. */
  ghost function LastSet(ops: seq<Op>, t: nat, p: nat): nat {
    if |ops| == 0 then p
    else LastSet(ops[1..], t, if ops[0].ParamSet? && ops[0].t == t then ops[0].prio else p)
  }

  ghost function PrioOf(s: Sl, t: nat): nat {
    if t in s.thd then s.thd[t].prio else LOWEST
  }

  lemma PrioStep(s: Sl, a: Op, t: nat)
    requires Inv(s) && Allowed(s, a)
    ensures PrioOf(Next(s, a), t) == if a.ParamSet? && a.t == t then a.prio else PrioOf(s, t)
  {
    match a
    case Create(u) => Creates(s, u);
    case ParamSet(u, v) => SetsPriority(s, u, v);
    case Block(u) => Blocks(s, u);
    case Wakeup(u) => Wakes(s, u);
    case Yield(u) => YieldsTurn(s, u);
  }

  lemma {:induction false} PriorityIsLastSet(s: Sl, ops: seq<Op>, t: nat)
    requires Inv(s) && Run(s, ops)
    ensures PrioOf(Exec(s, ops), t) == LastSet(ops, t, PrioOf(s, t))
    decreases |ops|
  {
    if |ops| > 0 {
      StepInv(s, ops[0]);
      PrioStep(s, ops[0], t);
      hide Inv, Next, Allowed;
      PriorityIsLastSet(Next(s, ops[0]), ops[1..], t);
    }
  }

  /** In every reachable state a thread has the priority that was last set for it, the lowest if none was,
      and if it is queued, it is in the queue for that priority and in no other. */
  lemma PriorityFromStart(ops: seq<Op>, t: nat)
    requires Run(Init(), ops)
    ensures var s, p := Exec(Init(), ops), LastSet(ops, t, 31);
            && |s.queues| == 32 && (t in s.thd ==> s.thd[t].prio == p)
            && forall i :: 0 <= i < |s.queues| && t in s.queues[i] ==> i == p
  {
    InitInv();
    RunInv(Init(), ops);
    PriorityIsLastSet(Init(), ops, t);
    var s := Exec(Init(), ops);
    forall i | 0 <= i < |s.queues| && t in s.queues[i] ensures t in s.thd && i == s.thd[t].prio { assert QueueOk(s, i); }
  }

  lemma {:induction false} RunInv(s: Sl, ops: seq<Op>)
    requires Inv(s) && Run(s, ops)
    ensures Inv(Exec(s, ops))
    decreases |ops|
  {
    if |ops| > 0 {
      StepInv(s, ops[0]);
      RunInv(Next(s, ops[0]), ops[1..]);
    }
  }

  /** Hence the scheduler picks a thread whose priority was set at least as well as that of any other queued
      one. */
  lemma BestPriorityPicked(ops: seq<Op>, t: nat, u: nat)
    requires Run(Init(), ops) && Schedule(Exec(Init(), ops)).Some? && Schedule(Exec(Init(), ops)).value == t
    requires Queued(Exec(Init(), ops), u)
    ensures LastSet(ops, t, 31) <= LastSet(ops, u, 31)
  {
    var s := Exec(Init(), ops);
    PriorityFromStart(ops, t);
    PriorityFromStart(ops, u);
    BestFirst(s.queues, 0);
    var k :| 0 <= k < |s.queues| && |s.queues[k]| > 0 && t == s.queues[k][0]
             && forall j :: 0 <= j < k ==> |s.queues[j]| == 0;
    var i :| 0 <= i < |s.queues| && u in s.queues[i];
    assert t in s.queues[k];
  }
}
