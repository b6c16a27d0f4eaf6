/** Who is scheduled first: the order of arrival in the ready queues over whole runs. */
module SlOrder {
  import opened Options
  import opened SlModel
  import opened SlInvariant

  /** The operation puts its thread at the end of a queue. */
  ghost predicate Enqueues(s: Sl, a: Op) {
    && a.t in s.thd
    && (a.ParamSet? || a.Yield? || (a.Wakeup? && s.thd[a.t].state == Blocked))
  }

  /** Operation j of the run puts thread t at the end of a queue. */
  ghost predicate EnqueuesAt(s: Sl, ops: seq<Op>, j: nat, t: nat)
    requires Run(s, ops) && j < |ops|
    decreases |ops|
  {
    if j == 0 then Enqueues(s, ops[0]) && ops[0].t == t else EnqueuesAt(Next(s, ops[0]), ops[1..], j - 1, t)
  }

  ghost function Stamped(s: Sl, a: Op, stamp: map<nat, nat>, now: nat): map<nat, nat> {
    if Enqueues(s, a) then stamp[a.t := now] else stamp
  }

  /** When each thread was last put in a queue: the operations of the run are numbered from `now` on. */
  ghost function Stamps(s: Sl, ops: seq<Op>, stamp: map<nat, nat>, now: nat): map<nat, nat>
    requires Run(s, ops)
    decreases |ops|
  {
    if |ops| == 0 then stamp
    else Stamps(Next(s, ops[0]), ops[1..], Stamped(s, ops[0], stamp, now), now + 1)
  }

  /** A thread's stamp is the position of the last operation of the run that put it in a queue; without
      any, it is what it was. */
  lemma {:induction false} StampIsLast(s: Sl, ops: seq<Op>, stamp: map<nat, nat>, now: nat, t: nat)
    requires Run(s, ops)
    ensures var after := Stamps(s, ops, stamp, now);
            || (exists j: nat :: LastAt(s, ops, j, t) && t in after && after[t] == now + j)
            || (&& (forall j: nat :: j < |ops| ==> !EnqueuesAt(s, ops, j, t))
                && (t in after <==> t in stamp) && (t in stamp ==> after[t] == stamp[t]))
    decreases |ops|
  {
    if |ops| > 0 {
      var s', rest, stamp' := Next(s, ops[0]), ops[1..], Stamped(s, ops[0], stamp, now);
      StampIsLast(s', rest, stamp', now + 1, t);
      assert forall k: nat {:trigger EnqueuesAt(s', rest, k, t)} :: k < |rest| ==>
          EnqueuesAt(s, ops, k + 1, t) == EnqueuesAt(s', rest, k, t);
      assert forall k: nat {:trigger EnqueuesAt(s, ops, k, t)} :: 0 < k < |ops| ==>
          EnqueuesAt(s, ops, k, t) == EnqueuesAt(s', rest, k - 1, t);
      if j: nat :| LastAt(s', rest, j, t) && t in Stamps(s', rest, stamp', now + 1)
                   && Stamps(s', rest, stamp', now + 1)[t] == now + 1 + j {
        assert LastAt(s, ops, j + 1, t);
      } else {
        forall k: nat | 0 < k < |ops| ensures !EnqueuesAt(s, ops, k, t) {
          assert !EnqueuesAt(s', rest, k - 1, t);
        }
        if EnqueuesAt(s, ops, 0, t) { assert LastAt(s, ops, 0, t); }
      }
    }
  }

  ghost predicate LastAt(s: Sl, ops: seq<Op>, j: nat, t: nat) {
    && Run(s, ops) && j < |ops| && EnqueuesAt(s, ops, j, t)
    && forall k: nat :: j < k < |ops| ==> !EnqueuesAt(s, ops, k, t)
  }

  // ----- queues in the order of their stamps -----

  /** Every thread of q was put in before `now`, and before those behind it. */
  ghost predicate Rising(q: seq<nat>, stamp: map<nat, nat>, now: nat) {
    |q| > 0 ==>
      && q[0] in stamp && stamp[q[0]] < now
      && (forall u :: u in q[1..] ==> u in stamp && stamp[q[0]] < stamp[u])
      && Rising(q[1..], stamp, now)
  }

  lemma {:induction false} RisingExcept(q: seq<nat>, stamp: map<nat, nat>, now: nat, t: nat)
    requires Rising(q, stamp, now)
    ensures Rising(Except(q, t), stamp, now)
  {
    if |q| > 0 {
      RisingExcept(q[1..], stamp, now, t);
      ExceptIs(q[1..], t);
      var rest := Except(q[1..], t);
      if q[0] != t { assert ([q[0]] + rest)[1..] == rest; } else { assert [] + rest == rest; }
    }
  }

  /** A queue that thread t is not in does not care about t's stamp. */
  lemma {:induction false} RisingLater(q: seq<nat>, stamp: map<nat, nat>, now: nat, t: nat, stamp': map<nat, nat>)
    requires Rising(q, stamp, now) && t !in q
    requires stamp' == stamp || stamp' == stamp[t := now]
    ensures Rising(q, stamp', now + 1)
  {
    if |q| > 0 {
      assert q == [q[0]] + q[1..];
      RisingLater(q[1..], stamp, now, t, stamp');
    }
  }

  lemma {:induction false} RisingUnstamped(q: seq<nat>, stamp: map<nat, nat>, now: nat)
    requires Rising(q, stamp, now)
    ensures Rising(q, stamp, now + 1)
  {
    if |q| > 0 { RisingUnstamped(q[1..], stamp, now); }
  }

  /** A thread put in now is the last of its queue. */
  lemma {:induction false} RisingAppend(q: seq<nat>, stamp: map<nat, nat>, now: nat, t: nat)
    requires Rising(q, stamp, now) && t !in q
    ensures Rising(q + [t], stamp[t := now], now + 1)
  {
    if |q| > 0 {
      assert q == [q[0]] + q[1..];
      RisingAppend(q[1..], stamp, now, t);
      assert (q + [t])[1..] == q[1..] + [t];
      RisingBelow(q[1..], stamp, now);
    } else {
      assert q + [t] == [t] && [t][1..] == [];
      assert Rising([], stamp[t := now], now + 1);
    }
  }

  lemma {:induction false} RisingBelow(q: seq<nat>, stamp: map<nat, nat>, now: nat)
    requires Rising(q, stamp, now)
    ensures forall u :: u in q ==> u in stamp && stamp[u] < now
  {
    if |q| > 0 {
      RisingBelow(q[1..], stamp, now);
      assert q == [q[0]] + q[1..];
    }
  }

  ghost predicate InOrder(s: Sl, stamp: map<nat, nat>, now: nat) {
    |s.queues| == NPRIOS
    && forall i {:trigger s.queues[i]} :: 0 <= i < NPRIOS ==> Rising(s.queues[i], stamp, now)
  }

  /** One queue after one operation. */
  lemma QueueInOrder(s: Sl, a: Op, stamp: map<nat, nat>, now: nat, i: nat)
    requires Inv(s) && Allowed(s, a) && InOrder(s, stamp, now) && i < NPRIOS
    ensures Rising(Next(s, a).queues[i], Stamped(s, a, stamp, now), now + 1)
  {
    var q := s.queues[i];
    FirstInFirstOut(s, a, i);
    ExceptIs(q, a.t);
    RisingExcept(q, stamp, now, a.t);
    if Enqueues(s, a) {
      if a.Wakeup? { DequeueNothing(s, a.t); }
      RisingLater(Except(q, a.t), stamp, now, a.t, stamp[a.t := now]);
      RisingAppend(Except(q, a.t), stamp, now, a.t);
    } else {
      RisingUnstamped(q, stamp, now);
      RisingUnstamped(Except(q, a.t), stamp, now);
    }
  }

  lemma {:induction false} RunInOrder(s: Sl, ops: seq<Op>, stamp: map<nat, nat>, now: nat)
    requires Inv(s) && Run(s, ops) && InOrder(s, stamp, now)
    ensures Inv(Exec(s, ops)) && InOrder(Exec(s, ops), Stamps(s, ops, stamp, now), now + |ops|)
    decreases |ops|
  {
    if |ops| > 0 {
      StepInv(s, ops[0]);
      forall i {:trigger Next(s, ops[0]).queues[i]} | 0 <= i < NPRIOS
        ensures Rising(Next(s, ops[0]).queues[i], Stamped(s, ops[0], stamp, now), now + 1)
      {
        QueueInOrder(s, ops[0], stamp, now, i);
      }
      RunInOrder(Next(s, ops[0]), ops[1..], Stamped(s, ops[0], stamp, now), now + 1);
    }
  }

  lemma FirstIsLeast(q: seq<nat>, stamp: map<nat, nat>, now: nat)
    requires Rising(q, stamp, now) && |q| > 0
    ensures q[0] in stamp && forall u :: u in q && u != q[0] ==> u in stamp && stamp[q[0]] < stamp[u]
  {
    assert q == [q[0]] + q[1..];
  }

  lemma ScheduleIs(s: Sl)
    ensures Schedule(s) == FirstFrom(s.queues, 0)
  {
  }

  /** The thread that has been queued longest in the best queue that is not empty. */
  ghost predicate LongestQueued(s: Sl, stamp: map<nat, nat>, p: nat, t: nat) {
    && p < |s.queues| && (forall i :: 0 <= i < p ==> s.queues[i] == [])
    && t in s.queues[p] && t in stamp
    && (forall u :: u in s.queues[p] && u != t ==> u in stamp && stamp[t] < stamp[u])
  }

  lemma OrderedSchedule(s: Sl, stamp: map<nat, nat>, now: nat)
    requires InOrder(s, stamp, now)
    ensures match Schedule(s)
            case None => forall i :: 0 <= i < |s.queues| ==> s.queues[i] == []
            case Some(t) => exists p: nat :: LongestQueued(s, stamp, p, t)
  {
    hide Rising, FirstFrom;
    BestFirst(s.queues, 0);
    ScheduleIs(s);
    if Schedule(s).Some? {
      var t := Schedule(s).value;
      var p: nat :| p < |s.queues| && |s.queues[p]| > 0 && t == s.queues[p][0]
                    && forall j :: 0 <= j < p ==> |s.queues[j]| == 0;
      FirstIsLeast(s.queues[p], stamp, now);
      assert LongestQueued(s, stamp, p, t);
    }
  }

  /** When each thread was last put in a queue in a run from the start. */
  ghost function Arrivals(ops: seq<Op>): map<nat, nat>
    requires Run(Init(), ops)
  {
    Stamps(Init(), ops, map[], 0)
  }

  /** In every reachable state the scheduler picks the thread that has been queued longest in the best
      queue that is not empty: its stamp is the least there. */
  lemma LongestQueuedFirst(ops: seq<Op>)
    requires Run(Init(), ops)
    ensures var s := Exec(Init(), ops);
            match Schedule(s)
            case None => forall i :: 0 <= i < |s.queues| ==> s.queues[i] == []
            case Some(t) => exists p: nat :: LongestQueued(s, Arrivals(ops), p, t)
  {
    hide Inv, InOrder, LongestQueued;
    InitInv();
    EmptyInOrder();
    RunInOrder(Init(), ops, map[], 0);
    OrderedSchedule(Exec(Init(), ops), Arrivals(ops), |ops|);
  }

  lemma EmptyInOrder()
    ensures InOrder(Init(), map[], 0)
  {
  }

  // ----- nobody to schedule -----

  /** The assertion in `sl_mod_schedule` fails exactly when no thread is in any queue. */
  lemma AssertionFailsIff(s: Sl)
    requires Shaped(s)
    ensures Schedule(s) == None <==> forall t :: !Queued(s, t)
  {
    BestFirst(s.queues, 0);
    if Schedule(s).Some? {
      var t := Schedule(s).value;
      var p: nat :| p < |s.queues| && |s.queues[p]| > 0 && t == s.queues[p][0];
      assert t in s.queues[p];
      assert Queued(s, t);
    }
  }

  /** The only thread with a priority blocks. */
  lemma OnlyThreadBlocks(t: nat, p: nat)
    requires p < NPRIOS
    ensures var ops := [Create(t), ParamSet(t, p), Block(t)];
            && Run(Init(), ops)
            && var s := Exec(Init(), ops);
               && Inv(s) && (forall i :: 0 <= i < NPRIOS ==> s.queues[i] == [])
               && t in s.thd && s.thd[t].state == Blocked
  {
    var s1 := Next(Init(), Create(t));
    var s2 := Next(s1, ParamSet(t, p));
    var s3 := Next(s2, Block(t));
    InitInv();
    StepInv(Init(), Create(t));
    StepInv(s1, ParamSet(t, p));
    StepInv(s2, Block(t));
    forall i | 0 <= i < NPRIOS ensures s3.queues[i] == [] {
      ExceptIs([], t);
      assert s1.queues[i] == [];
      assert Except([], t) == [];
      assert s2.queues[i] == if i == p then [t] else [];
      assert Except([t], t) == [] + Except([t][1..], t);
    }
    ThreeSteps(Init(), Create(t), ParamSet(t, p), Block(t));
  }

  /** The assertion does fail. */
  lemma AssertionFails(t: nat, p: nat)
    requires p < NPRIOS
    ensures var ops := [Create(t), ParamSet(t, p), Block(t)];
            Run(Init(), ops) && Schedule(Exec(Init(), ops)) == None
  {
    OnlyThreadBlocks(t, p);
    AssertionFailsIff(Exec(Init(), [Create(t), ParamSet(t, p), Block(t)]));
  }

  /** And if the priority of the BLOCKED thread is set now, the scheduler picks the thread. */
  lemma BlockedThreadPicked(t: nat, p: nat)
    requires p < NPRIOS
    ensures var ops := [Create(t), ParamSet(t, p), Block(t)];
            && Run(Init(), ops)
            && var s := Exec(Init(), ops);
               && Shaped(s) && t in s.thd && s.thd[t].state == Blocked
               && Schedule(Next(s, ParamSet(t, p))) == Some(t)
               && Next(s, ParamSet(t, p)).thd[t].state == Blocked
  {
    OnlyThreadBlocks(t, p);
    var s := Exec(Init(), [Create(t), ParamSet(t, p), Block(t)]);
    hide Run, Exec, Inv;
    var s' := Next(s, ParamSet(t, p));
    forall i | 0 <= i < NPRIOS ensures s'.queues[i] == if i == p then [t] else [] {
      assert Except([], t) == [];
      assert Dequeue(s.queues, t)[i] == [];
    }
    BestFirst(s'.queues, 0);
    assert s'.queues[p] == [t] && |s'.queues[p]| == 1;
    if Schedule(s').Some? {
      var k :| 0 <= k < NPRIOS && |s'.queues[k]| > 0 && Schedule(s').value == s'.queues[k][0];
      assert k == p;
    }
  }

  lemma ThreeSteps(s: Sl, a: Op, b: Op, c: Op)
    requires Inv(s) && Allowed(s, a) && Allowed(Next(s, a), b)
    requires Inv(Next(s, a)) && Inv(Next(Next(s, a), b)) && Allowed(Next(Next(s, a), b), c)
    requires Inv(Next(Next(Next(s, a), b), c))
    ensures Run(s, [a, b, c]) && Exec(s, [a, b, c]) == Next(Next(Next(s, a), b), c)
  {
    assert [a, b, c][1..] == [b, c] && [b, c][1..] == [c] && [c][1..] == [];
    hide Next, Inv, Allowed;
    var s1 := Next(s, a);
    var s2 := Next(s1, b);
    assert Run(Next(s2, c), []) && Exec(Next(s2, c), []) == Next(s2, c);
    assert Run(s2, [c]) && Exec(s2, [c]) == Next(s2, c);
    assert Run(s1, [b, c]) && Exec(s1, [b, c]) == Next(s2, c);
  }
}
