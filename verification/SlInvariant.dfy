/** The ready queues and the thread states stay in step, and scheduling is round robin. */
module SlInvariant {
  import opened Options
  import opened SlModel

  // ----- queues -----

  lemma {:induction false} ExceptIs(q: seq<nat>, t: nat)
    ensures forall x :: x in Except(q, t) <==> x in q && x != t
    ensures Distinct(q) ==> Distinct(Except(q, t))
    ensures t !in q ==> Except(q, t) == q
  {
    if |q| > 0 {
      ExceptIs(q[1..], t);
      var rest := Except(q[1..], t);
      if q[0] != t { assert ([q[0]] + rest)[1..] == rest; } else { assert [] + rest == rest; }
      assert q == [q[0]] + q[1..];
    }
  }

  lemma {:induction false} AppendDistinct(q: seq<nat>, t: nat)
    requires Distinct(q) && t !in q
    ensures Distinct(q + [t])
  {
    if |q| > 0 {
      AppendDistinct(q[1..], t);
      assert (q + [t])[1..] == q[1..] + [t];
    }
  }

  lemma {:induction false} ExceptHead(q: seq<nat>)
    requires Distinct(q) && |q| > 0
    ensures Except(q, q[0]) == q[1..]
  {
    ExceptIs(q[1..], q[0]);
  }

  // ----- threads in queues -----

  /** No thread is in two places: a queue holds each thread once, and only threads of its priority. */
  ghost predicate Apart(s: Sl, i: nat)
    requires i < |s.queues|
  {
    Distinct(s.queues[i]) && forall t :: t in s.queues[i] ==> t in s.thd && s.thd[t].prio == i
  }

  lemma {:induction false} ExceptAt(q: seq<nat>, k: nat)
    requires Distinct(q) && k < |q|
    ensures Except(q, q[k]) == q[..k] + q[k + 1..]
  {
    if k == 0 {
      ExceptHead(q);
    } else {
      assert q[1..][k - 1] == q[k];
      ExceptAt(q[1..], k - 1);
      assert [q[0]] + (q[1..][..k - 1] + q[1..][k..]) == q[..k] + q[k + 1..];
    }
  }

  ghost predicate AllApart(s: Sl) {
    |s.queues| == NPRIOS && forall i {:trigger Apart(s, i)} :: 0 <= i < NPRIOS ==> Apart(s, i)
  }

  /** Where thread t is queued, if it is. */
  lemma Position(s: Sl, t: nat) returns (at: Option<nat>, k: nat)
    requires AllApart(s) && Shaped(s) && t in s.thd
    ensures match at
            case None => k == 0 && !Queued(s, t) && Dequeue(s.queues, t) == s.queues
            case Some(i) =>
              && i == s.thd[t].prio && k < |s.queues[i]| && s.queues[i][k] == t
              && Dequeue(s.queues, t) == s.queues[i := s.queues[i][..k] + s.queues[i][k + 1..]]
    ensures at.Some? <==> Queued(s, t)
  {
    var p := s.thd[t].prio;
    forall i | 0 <= i < NPRIOS && (i != p || t !in s.queues[p])
      ensures t !in s.queues[i] && Except(s.queues[i], t) == s.queues[i]
    {
      assert Apart(s, i);
      ExceptIs(s.queues[i], t);
    }
    assert Apart(s, p);
    if t in s.queues[p] {
      at := Some(p);
      k :| k < |s.queues[p]| && s.queues[p][k] == t;
      ExceptAt(s.queues[p], k);
    } else {
      at, k := None, 0;
    }
  }

  lemma DequeueApart(s: Sl, t: nat)
    requires AllApart(s)
    ensures AllApart(s.(queues := Dequeue(s.queues, t))) && !Queued(s.(queues := Dequeue(s.queues, t)), t)
    ensures forall u :: u != t && Queued(s, u) ==> Queued(s.(queues := Dequeue(s.queues, t)), u)
  {
    var s' := s.(queues := Dequeue(s.queues, t));
    forall i | 0 <= i < NPRIOS
      ensures Apart(s', i) && forall u :: u in s'.queues[i] <==> u in s.queues[i] && u != t
    {
      assert Apart(s, i);
      ExceptIs(s.queues[i], t);
    }
  }

  lemma EnqueueApart(s: Sl, t: nat)
    requires AllApart(s) && Shaped(s) && t in s.thd && !Queued(s, t)
    ensures var s' := s.(queues := Enqueue(s.queues, s.thd[t].prio, t));
            AllApart(s') && Queued(s', t) && forall u :: Queued(s, u) ==> Queued(s', u)
  {
    var p := s.thd[t].prio;
    var s' := s.(queues := Enqueue(s.queues, p, t));
    forall i | 0 <= i < NPRIOS
      ensures Apart(s', i) && forall u :: u in s.queues[i] ==> u in s'.queues[i]
    {
      assert Apart(s, i);
      if i == p { AppendDistinct(s.queues[p], t); }
    }
    assert t in s'.queues[p];
  }

  lemma SameQueues(s: Sl, t: nat, c: Thd)
    requires AllApart(s) && t in s.thd && (c.prio == s.thd[t].prio || !Queued(s, t))
    ensures AllApart(s.(thd := s.thd[t := c]))
    ensures forall u :: Queued(s.(thd := s.thd[t := c]), u) <==> Queued(s, u)
  {
    var s' := s.(thd := s.thd[t := c]);
    forall i | 0 <= i < NPRIOS ensures Apart(s', i) { assert Apart(s, i); }
  }

  lemma NewApart(s: Sl, t: nat)
    requires AllApart(s) && t !in s.thd
    ensures var s' := SlModel.Sl(s.queues, s.thd[t := Thd(Runnable, LOWEST, false, 0, 0)]);
            AllApart(s') && forall u :: Queued(s', u) <==> Queued(s, u)
  {
    var s' := SlModel.Sl(s.queues, s.thd[t := Thd(Runnable, LOWEST, false, 0, 0)]);
    forall i | 0 <= i < NPRIOS ensures Apart(s', i) { assert Apart(s, i); }
  }

  // ----- the operations keep the invariant -----

  /** Re-queueing thread t at priority `prio`, as yield, wakeup and a change of priority do. */
  lemma Requeue(s: Sl, s': Sl, t: nat, prio: nat)
    requires Inv(s) && prio < NPRIOS && Shaped(s') && t in s'.thd
    requires s'.queues == Enqueue(Dequeue(s.queues, t), prio, t)
    requires s'.thd[t].prio == prio && s'.thd[t].state != Blocked
    requires forall u :: u != t ==> (u in s'.thd <==> u in s.thd) && (u in s.thd ==> s'.thd[u] == s.thd[u])
    ensures forall i :: 0 <= i < NPRIOS ==> QueueOk(s', i)
    ensures forall u :: u in s'.thd && u != t ==> ThdOk(s', u)
    ensures t in s'.queues[prio]
  {
    forall i | 0 <= i < NPRIOS ensures QueueOk(s', i) {
      assert QueueOk(s, i);
      ExceptIs(s.queues[i], t);
      if i == prio { AppendDistinct(Except(s.queues[i], t), t); }
    }
    forall u | u in s'.thd && u != t ensures ThdOk(s', u) {
      assert ThdOk(s, u);
      ExceptIs(s.queues[s.thd[u].prio], t);
    }
  }

  lemma DequeueNothing(s: Sl, t: nat)
    requires Inv(s) && t in s.thd && s.thd[t].state == Blocked
    ensures Dequeue(s.queues, t) == s.queues
  {
    forall i | 0 <= i < NPRIOS ensures Except(s.queues[i], t) == s.queues[i] {
      assert QueueOk(s, i);
      ExceptIs(s.queues[i], t);
    }
  }

  lemma CreateInv(s: Sl, t: nat)
    requires Inv(s) && Allowed(s, Create(t))
    ensures Inv(Next(s, Create(t)))
  {
    var s' := Next(s, Create(t));
    forall i | 0 <= i < NPRIOS ensures QueueOk(s', i) { assert QueueOk(s, i); }
    forall u | u in s'.thd ensures ThdOk(s', u) { if u != t { assert ThdOk(s, u); } }
  }

  lemma ParamSetInv(s: Sl, t: nat, prio: nat)
    requires Inv(s) && Allowed(s, ParamSet(t, prio))
    ensures Inv(Next(s, ParamSet(t, prio)))
  {
    var s' := Next(s, ParamSet(t, prio));
    assert ThdOk(s, t);
    Requeue(s, s', t, prio);
  }

  lemma BlockInv(s: Sl, t: nat)
    requires Inv(s) && Allowed(s, Block(t))
    ensures Inv(Next(s, Block(t)))
  {
    var s' := Next(s, Block(t));
    assert ThdOk(s, t);
    forall i | 0 <= i < NPRIOS ensures QueueOk(s', i) {
      assert QueueOk(s, i);
      ExceptIs(s.queues[i], t);
    }
    forall u | u in s'.thd ensures ThdOk(s', u) {
      assert ThdOk(s, u);
      ExceptIs(s.queues[s.thd[u].prio], t);
    }
  }

  lemma WakeupInv(s: Sl, t: nat)
    requires Inv(s) && Allowed(s, Wakeup(t))
    ensures Inv(Next(s, Wakeup(t)))
  {
    var s' := Next(s, Wakeup(t));
    if t !in s.thd { return; }
    assert ThdOk(s, t);
    if s.thd[t].state == Blocked {
      DequeueNothing(s, t);
      Requeue(s, s', t, s.thd[t].prio);
    } else {
      forall i | 0 <= i < NPRIOS ensures QueueOk(s', i) { assert QueueOk(s, i); }
      forall u | u in s'.thd ensures ThdOk(s', u) { assert ThdOk(s, u); }
    }
  }

  lemma YieldInv(s: Sl, t: nat)
    requires Inv(s) && Allowed(s, Yield(t))
    ensures Inv(Next(s, Yield(t)))
  {
    assert ThdOk(s, t);
    Requeue(s, Next(s, Yield(t)), t, s.thd[t].prio);
  }

  lemma StepInv(s: Sl, a: Op)
    requires Inv(s) && Allowed(s, a)
    ensures Inv(Next(s, a))
  {
    match a
    case Create(t) => CreateInv(s, t);
    case ParamSet(t, prio) => ParamSetInv(s, t, prio);
    case Block(t) => BlockInv(s, t);
    case Wakeup(t) => WakeupInv(s, t);
    case Yield(t) => YieldInv(s, t);
  }

  lemma InitInv()
    ensures Inv(Init())
  {
  }

  /** The assertion in `sl_mod_wakeup`: a thread that is put back was in no queue. */
  lemma WokenThreadIsAlone(s: Sl, t: nat)
    requires Inv(s) && t in s.thd && s.thd[t].state == Blocked
    ensures !Queued(s, t)
  {
    forall i | 0 <= i < |s.queues| ensures t !in s.queues[i] { assert QueueOk(s, i); }
  }

  /** No wakeup is lost and none is invented: the state is what the two counts say, and a thread whose
      priority has been set is ready exactly when it is not BLOCKED. */
  lemma StateIsBalance(s: Sl, t: nat)
    requires Inv(s) && t in s.thd
    ensures var c := s.thd[t];
            && (c.state == Blocked <==> c.wakeups == c.blocks - 1)
            && (c.state == Runnable <==> c.wakeups == c.blocks)
            && (c.state == Woken <==> c.wakeups == c.blocks + 1)
            && (c.placed ==> (Queued(s, t) <==> c.state in {Runnable, Woken}))
    ensures forall i :: 0 <= i < NPRIOS && t in s.queues[i] ==> i == s.thd[t].prio
  {
    assert ThdOk(s, t);
    forall i | 0 <= i < NPRIOS && t in s.queues[i] ensures i == s.thd[t].prio && s.thd[t].state != Blocked {
      assert QueueOk(s, i);
    }
    if t in s.queues[s.thd[t].prio] { assert Queued(s, t); }
  }

  /** Queues are first in, first out: an operation takes at most its own thread out of a queue, puts it
      in only at the end, and leaves everybody else in order. */
  lemma FirstInFirstOut(s: Sl, a: Op, i: nat)
    requires Inv(s) && Allowed(s, a) && i < NPRIOS
    ensures var q, q' := s.queues[i], Next(s, a).queues[i];
            q' == q || q' == Except(q, a.t) || q' == Except(q, a.t) + [a.t]
    ensures a.t in s.thd && a.t !in s.queues[i] && a.t in Next(s, a).queues[i] ==>
              Next(s, a).queues[i] == s.queues[i] + [a.t]
  {
    ExceptIs(s.queues[i], a.t);
    if a.Wakeup? && a.t in s.thd && s.thd[a.t].state == Blocked { DequeueNothing(s, a.t); }
  }

  /** Setting the priority of a thread keeps the queues right exactly when the thread is not BLOCKED: the
      operation queues the thread whatever its state is. */
  lemma ParamSetIff(s: Sl, t: nat, prio: nat)
    requires Inv(s) && t in s.thd && prio < NPRIOS
    ensures Inv(Next(s, ParamSet(t, prio))) <==> s.thd[t].state != Blocked
  {
    if s.thd[t].state != Blocked {
      ParamSetInv(s, t, prio);
    } else {
      var s' := Next(s, ParamSet(t, prio));
      assert t in s'.queues[prio];
      assert !QueueOk(s', prio);
    }
  }

  /** What first puts a thread in a queue whose priority has never been set: setting it, but also a yield
      of the thread and a wakeup from BLOCKED. */
  lemma FirstQueuedIff(s: Sl, a: Op, t: nat)
    requires Inv(s) && Allowed(s, a) && t in s.thd && !s.thd[t].placed && !Queued(s, t)
    ensures Queued(Next(s, a), t) <==>
              (a.ParamSet? && a.t == t) || a == Yield(t) || (a == Wakeup(t) && s.thd[t].state == Blocked)
  {
    var s' := Next(s, a);
    var queues := (a.ParamSet? && a.t == t) || a == Yield(t) || (a == Wakeup(t) && s.thd[t].state == Blocked);
    if queues {
      assert t in s'.queues[s'.thd[t].prio];
    } else {
      forall i | 0 <= i < |s'.queues| ensures t !in s'.queues[i] {
        assert t !in s.queues[i];
        if !a.Create? { ExceptIs(s.queues[i], a.t); }
      }
    }
  }

  // ----- runs -----

  ghost predicate Run(s: Sl, ops: seq<Op>)
    decreases |ops|
  {
    Shaped(s) && (|ops| > 0 ==> Allowed(s, ops[0]) && Run(Next(s, ops[0]), ops[1..]))
  }

  ghost function Exec(s: Sl, ops: seq<Op>): Sl
    requires Run(s, ops)
    decreases |ops|
  {
    if |ops| == 0 then s else Exec(Next(s, ops[0]), ops[1..])
  }

  ghost function Count(ops: seq<Op>, a: Op): nat {
    if |ops| == 0 then 0 else (if ops[0] == a then 1 else 0) + Count(ops[1..], a)
  }

  lemma {:induction false} RunCounts(s: Sl, ops: seq<Op>, t: nat)
    requires Inv(s) && Run(s, ops) && t in s.thd
    ensures Inv(Exec(s, ops)) && t in Exec(s, ops).thd
    ensures Exec(s, ops).thd[t].blocks == s.thd[t].blocks + Count(ops, Block(t))
    ensures Exec(s, ops).thd[t].wakeups == s.thd[t].wakeups + Count(ops, Wakeup(t))
    decreases |ops|
  {
    if |ops| > 0 {
      StepInv(s, ops[0]);
      RunCounts(Next(s, ops[0]), ops[1..], t);
    }
  }

  /** Over any run a RUNNABLE thread with its priority set ends up BLOCKED, ready, or ready with a wakeup
      in store according to how many wakeups and blocks there were. */
  lemma WakeupsNeverLost(s: Sl, ops: seq<Op>, t: nat)
    requires Inv(s) && Run(s, ops) && t in s.thd && s.thd[t].state == Runnable && s.thd[t].placed
    ensures var s' := Exec(s, ops);
            && t in s'.thd
            && Count(ops, Wakeup(t)) - Count(ops, Block(t)) ==
               (match s'.thd[t].state case Blocked => -1 case Runnable => 0 case Woken => 1)
            && (Queued(s', t) <==> Count(ops, Wakeup(t)) >= Count(ops, Block(t)))
  {
    RunCounts(s, ops, t);
    StillPlaced(s, ops, t);
    StateIsBalance(s, t);
    StateIsBalance(Exec(s, ops), t);
  }

  lemma {:induction false} StillPlaced(s: Sl, ops: seq<Op>, t: nat)
    requires Run(s, ops) && t in s.thd && s.thd[t].placed
    ensures t in Exec(s, ops).thd && Exec(s, ops).thd[t].placed
    decreases |ops|
  {
    if |ops| > 0 { StillPlaced(Next(s, ops[0]), ops[1..], t); }
  }

  // ----- scheduling -----

  /** `sl_mod_schedule` returns the first thread of the best queue that has any, and finds one unless every
      queue is empty. */
  lemma {:induction false} BestFirst(qs: seq<seq<nat>>, i: nat)
    requires i <= |qs|
    ensures match FirstFrom(qs, i)
            case None => forall k :: i <= k < |qs| ==> |qs[k]| == 0
            case Some(t) =>
              exists k :: i <= k < |qs| && |qs[k]| > 0 && t == qs[k][0] && forall j :: i <= j < k ==> |qs[j]| == 0
    decreases |qs| - i
  {
    if i < |qs| {
      if |qs[i]| > 0 {
        assert i <= i < |qs| && |qs[i]| > 0 && qs[i][0] == FirstFrom(qs, i).value;
      } else {
        BestFirst(qs, i + 1);
        if FirstFrom(qs, i).Some? {
          var k :| i + 1 <= k < |qs| && |qs[k]| > 0 && FirstFrom(qs, i).value == qs[k][0]
                   && forall j :: i + 1 <= j < k ==> |qs[j]| == 0;
          assert forall j :: i <= j < k ==> |qs[j]| == 0;
        }
      }
    }
  }

  lemma {:induction false} FirstIs(qs: seq<seq<nat>>, i: nat, k: nat)
    requires i <= k < |qs| && |qs[k]| > 0 && forall j :: i <= j < k ==> |qs[j]| == 0
    ensures FirstFrom(qs, i) == Some(qs[k][0])
    decreases k - i
  {
    if i < k { FirstIs(qs, i + 1, k); }
  }

  /** The thread that is scheduled yields, n times over. */
  ghost function Turns(s: Sl, n: nat): (Sl, seq<nat>)
    requires Shaped(s)
    decreases n
  {
    if n == 0 || Schedule(s).None? || Schedule(s).value !in s.thd then (s, [])
    else
      var t := Schedule(s).value;
      var (s', ran) := Turns(Next(s, Yield(t)), n - 1);
      (s', [t] + ran)
  }

  /** Round robin: n turns of yielding run the first n threads of the best queue in order and rotate the
      queue by n; after one turn for each of them the queues are as before. */
  lemma {:induction false} RoundRobin(s: Sl, p: nat, n: nat)
    requires Inv(s) && p < NPRIOS && n <= |s.queues[p]| && |s.queues[p]| > 0
    requires forall j :: 0 <= j < p ==> |s.queues[j]| == 0
    ensures var q := s.queues[p];
            Turns(s, n) == (s.(queues := s.queues[p := q[n..] + q[..n]]), q[..n])
    ensures n == |s.queues[p]| ==> Turns(s, n).0 == s
    decreases n
  {
    var q := s.queues[p];
    if n == 0 {
      assert q[0..] + q[..0] == q;
      assert s.queues[p := q] == s.queues;
    } else {
      FirstIs(s.queues, 0, p);
      YieldRotates(s, p);
      YieldInv(s, q[0]);
      var q1 := q[1..] + [q[0]];
      var s1 := s.(queues := s.queues[p := q1]);
      assert Next(s, Yield(q[0])) == s1;
      hide Inv, Shaped, Next, FirstFrom;
      RoundRobin(s1, p, n - 1);
      RotatedBy(q, n);
      assert s1.queues[p := q[n..] + q[..n]] == s.queues[p := q[n..] + q[..n]];
    }
    if n == |q| {
      assert q[n..] + q[..n] == q;
      assert s.queues[p := q] == s.queues;
    }
  }

  lemma RotatedBy(q: seq<nat>, n: nat)
    requires 0 < n <= |q|
    ensures var q1 := q[1..] + [q[0]];
            q1[n - 1..] + q1[..n - 1] == q[n..] + q[..n] && [q[0]] + q1[..n - 1] == q[..n]
  {
  }

  lemma YieldRotates(s: Sl, p: nat)
    requires Inv(s) && p < NPRIOS && |s.queues[p]| > 0
    ensures var q := s.queues[p];
            && q[0] in s.thd && Allowed(s, Yield(q[0]))
            && Next(s, Yield(q[0])) == s.(queues := s.queues[p := q[1..] + [q[0]]])
  {
    var q := s.queues[p];
    var t := q[0];
    assert QueueOk(s, p);
    forall i | 0 <= i < NPRIOS && i != p ensures Except(s.queues[i], t) == s.queues[i] {
      assert QueueOk(s, i);
      ExceptIs(s.queues[i], t);
    }
    ExceptHead(q);
    assert Next(s, Yield(t)).queues == s.queues[p := q[1..] + [t]];
  }
}
