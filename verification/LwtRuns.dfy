/** What holds over whole runs of the thread library: counters, joins and dispatching. */
module LwtRuns {
  import opened Options
  import opened LwtCounters
  import opened LwtModel
  import opened LwtInvariant

  /** Each step is one the callers are allowed to take in the state it is taken in. */
  ghost predicate Run(s: Lwt, steps: seq<Step>)
    decreases |steps|
  {
    && Shaped(s)
    && (|steps| > 0 ==> Allowed(s, steps[0]) && Run(Next(s, steps[0]), steps[1..]))
  }

  ghost function Exec(s: Lwt, steps: seq<Step>): Lwt
    requires Run(s, steps)
    decreases |steps|
  {
    if |steps| == 0 then s else Exec(Next(s, steps[0]), steps[1..])
  }

  /** The number of LWT_NOJOIN threads that die in the run. */
  ghost function Leavers(s: Lwt, steps: seq<Step>): nat
    requires Run(s, steps)
    decreases |steps|
  {
    if |steps| == 0 then 0
    else (if Leaves(s, steps[0]) then 1 else 0) + Leavers(Next(s, steps[0]), steps[1..])
  }

  lemma {:induction false} RunInv(s: Lwt, steps: seq<Step>, gone: nat)
    requires Inv(s, gone) && Run(s, steps)
    ensures Inv(Exec(s, steps), gone + Leavers(s, steps))
    decreases |steps|
  {
    if |steps| > 0 {
      StepInv(s, steps[0], gone);
      RunInv(Next(s, steps[0]), steps[1..], if Leaves(s, steps[0]) then gone + 1 else gone);
    }
  }

  // ----- the counters -----

  /** `__lwt_schedule` returns early when this counter is 0; it never is. */
  lemma RunnablePositive(s: Lwt, gone: nat)
    requires Inv(s, gone)
    ensures s.runnable >= 1
  {
    var me := Cur(s);
    assert Linked(s, me);
    var other := if s.tcb[me].pc.InJoin? then s.tcb[me].pc.target else me;
    assert Linked(s, other);
    var i := IndexOf(s.ring, other);
    var rest := s.ring[..i] + s.ring[i + 1..];
    forall u | u in Joiners(s) ensures u in rest {
      var j := IndexOf(s.ring, u);
      assert rest[if j < i then j else j - 1] == u;
    }
    JoinersFit(rest, Joiners(s));
  }

  /** The counters after any run: what they add up to, and what each of them counts. */
  lemma CounterConservation(flag: Flag, steps: seq<Step>)
    requires Run(Init(flag), steps)
    ensures var s, gone := Exec(Init(flag), steps), Leavers(Init(flag), steps);
            && s.runnable + s.blocked == 1 + s.zombies
            && s.runnable >= 1
            && s.runnable == |InState(s, Runnable)| + |Unjoined(s)| + gone
            && s.blocked == |InState(s, Blocked)| + |Claimed(s)| == |Joiners(s)|
            && s.zombies + 1 == |InState(s, Runnable)| + |InState(s, Blocked)| + |InState(s, Dead)| + gone
  {
    InitInv(flag);
    RunInv(Init(flag), steps, 0);
    var s, gone := Exec(Init(flag), steps), Leavers(Init(flag), steps);
    RunnablePositive(s, gone);
    CountersAre(s, gone);
  }

  /** After any run a counter is the number that its name promises exactly if: for NTHD_RUNNABLE, no
      LWT_NOJOIN thread has died and every DEAD thread has a joiner; for NTHD_BLOCKED, no DEAD thread has
      one; for NTHD_ZOMBIES, no LWT_NOJOIN thread has died and all threads but the current one are DEAD. */
  lemma CountersTrueIff(flag: Flag, steps: seq<Step>)
    requires Run(Init(flag), steps)
    ensures var s, left := Exec(Init(flag), steps), Leavers(Init(flag), steps) > 0;
            && Shaped(s)
            && (s.runnable == |InState(s, Runnable)| <==>
                  !left && forall t :: t in InState(s, Dead) ==> s.tcb[t].joinedFrom != 0)
            && (s.blocked == |InState(s, Blocked)| <==>
                  forall t :: t in InState(s, Dead) ==> s.tcb[t].joinedFrom == 0)
            && (s.zombies == |InState(s, Dead)| <==>
                  !left && InState(s, Blocked) == {} && InState(s, Runnable) == {Cur(s)})
  {
    InitInv(flag);
    RunInv(Init(flag), steps, 0);
    CountersExactIff(Exec(Init(flag), steps), Leavers(Init(flag), steps));
  }

  /** In every state that a run from the start reaches, the current thread is RUNNABLE, the join chain of
      every thread that is not DEAD ends at a RUNNABLE thread, and the unbounded scan stops within a lap. */
  lemma ReachableScansEnd(flag: Flag, steps: seq<Step>, t: nat)
    requires Run(Init(flag), steps)
    ensures var s := Exec(Init(flag), steps);
            && Shaped(s) && s.tcb[Cur(s)].state == Runnable
            && s.tcb[Rotate(s.ring, Scan(s.ring, s.tcb, 1))[0]].state == Runnable
            && (t in s.tcb && s.tcb[t].state != Dead ==> exists p :: Chain(s, p) && p[0] == t)
  {
    InitInv(flag);
    RunInv(Init(flag), steps, 0);
    var s := Exec(Init(flag), steps);
    ScanEnds(s);
    if t in s.tcb && s.tcb[t].state != Dead {
      var p := ChainEnds(s, t);
    }
  }

  // ----- join -----

  /** A blocked join is only ever continued after its target died, so the loop body has run once. */
  lemma ResumeReturns(s: Lwt, gone: nat)
    requires Inv(s, gone) && Allowed(s, Resume)
    ensures var t := s.tcb[Cur(s)].pc.target;
            && s.tcb[t].state == Dead
            && Reaped(s, Resume) == Some((t, s.tcb[t].ret))
  {
    assert Linked(s, Cur(s));
  }

  /** The loop of a blocking join, iterated while nothing else runs. */
  ghost function Spin(s: Lwt, k: nat): Lwt
    requires Shaped(s) && s.tcb[Cur(s)].state == Blocked && s.tcb[Cur(s)].pc.InJoin?
    requires s.tcb[Cur(s)].pc.target in s.tcb && s.tcb[s.tcb[Cur(s)].pc.target].state != Runnable
    decreases k
  {
    if k == 0 then s else Spin(JoinLoop(s), k - 1)
  }

  /** Why a BLOCKED target is outside the contract: the directed yield of `lwt_join` then switches to
      nobody, and the loop spins for ever while it drains one counter into another. */
  lemma {:induction false} BlockedTargetSpins(s: Lwt, k: nat)
    requires Shaped(s) && s.tcb[Cur(s)].state == Blocked && s.tcb[Cur(s)].pc.InJoin?
    requires s.tcb[Cur(s)].pc.target in s.tcb && s.tcb[s.tcb[Cur(s)].pc.target].state != Runnable
    ensures Spin(s, k) == s.(runnable := s.runnable - k, blocked := s.blocked + k)
    decreases k
  {
    if k > 0 { BlockedTargetSpins(JoinLoop(s), k - 1); }
  }

  /** Exactly when a join of a live joinable thread passes control on. */
  lemma JoinSwitchesIff(s: Lwt, t: nat, gone: nat)
    requires Inv(s, gone) && t in s.tcb && t != Cur(s)
    requires s.tcb[t].flag == Joinable && s.tcb[t].state != Dead
    ensures Shaped(JoinStep(s, t))
    ensures Cur(JoinStep(s, t)) != Cur(s) <==> s.tcb[t].state == Runnable
    ensures s.tcb[t].state == Blocked ==>
              JoinStep(s, t) == BlockCur(LinkJoin(s, t), t).(runnable := s.runnable - 1, blocked := s.blocked + 1)
  {
    LinkShape(s, t);
    var s2 := BlockCur(LinkJoin(s, t), t);
    assert s2.tcb.Keys == s.tcb.Keys;
    if s.tcb[t].state == Runnable {
      var i := IndexOf(s.ring, t);
      RotateShape(s.ring, i);
    }
  }

  /** Thread j is past the loop of its join although its target has not died. */
  ghost predicate ReturnsEarly(s: Lwt, j: nat) {
    && j in s.tcb && s.tcb[j].pc.InJoin? && s.tcb[j].state != Blocked
    && s.tcb[j].pc.target in s.tcb && s.tcb[s.tcb[j].pc.target].state != Dead
  }

  /** Why a fresh control block must hold a null `joinedfrom`.  Suppose the current thread's block still
      names j, who joined an earlier thread there, while nobody joins the current thread.  Its death wakes
      j: if and only if j is BLOCKED in another join, that join will return before its target has died; if
      and only if j is DEAD, a dead thread will run again; and only if j is RUNNABLE nothing is amiss. */
  lemma StaleJoinerWakes(s: Lwt, j: nat, v: int, gone: nat)
    requires Inv(s, gone) && !s.tcb[Cur(s)].pc.InJoin? && s.tcb[Cur(s)].flag == Joinable && Cur(s) != INITIAL
    requires s.tcb[Cur(s)].joinedFrom == 0 && j in s.tcb && j != Cur(s)
    ensures var stale := Set(s, Cur(s), s.tcb[Cur(s)].(joinedFrom := j));
            && Shaped(stale) && Cur(stale) == Cur(s)
            && var after := Mark(stale, v);
               && (ReturnsEarly(after, j) <==> s.tcb[j].state == Blocked)
               && (after.tcb[j].state == Runnable && after.tcb[j].pc == Exited <==> s.tcb[j].state == Dead)
               && (after.tcb[j] == s.tcb[j] <==> s.tcb[j].state == Runnable)
               && forall k :: k in s.tcb && k != j && s.tcb[k].pc != InJoin(j) ==> !ReturnsEarly(after, k)
  {
    var c := Cur(s);
    SameKeys(s, c, s.tcb[c].(joinedFrom := j));
    assert Linked(s, j) && Linked(s, c);
    if s.tcb[j].pc.InJoin? { assert Linked(s, s.tcb[j].pc.target); }
    forall k | k in s.tcb && k != j && s.tcb[k].pc != InJoin(j)
      ensures !ReturnsEarly(Mark(Set(s, c, s.tcb[c].(joinedFrom := j)), v), k)
    {
      assert Linked(s, k);
      if s.tcb[k].pc.InJoin? { assert Linked(s, s.tcb[k].pc.target); }
    }
  }

  /** A thread's life: not yet created, alive, DEAD with its value stored, gone. */
  datatype Phase = Future | Alive | Ended(value: int) | Past

  ghost function PhaseOf(s: Lwt, t: nat): Phase {
    if t in s.tcb then
      if s.tcb[t].state == Dead then Ended(s.tcb[t].ret) else Alive
    else if t > s.tidCounter then Future else Past
  }

  /** What one step can do to a thread's phase.  A DEAD thread keeps its value and disappears only when a
      join returns that value; a joinable thread that is not DEAD cannot disappear. */
  ghost predicate PhaseMove(s: Lwt, a: Step, t: nat)
    requires Shaped(s) && Allowed(s, a)
  {
    var before, after := PhaseOf(s, t), PhaseOf(Next(s, a), t);
    var dies := a.Die? && Cur(s) == t;
    var reaped := Reaped(s, a).Some? && Reaped(s, a).value.0 == t;
    match before
    case Future => after in {Future, Alive} && !dies && !reaped
    case Alive => !reaped && after == if !dies then Alive else if Leaves(s, a) then Past else Ended(a.value)
    case Ended(v) =>
      !dies && after == (if reaped then Past else before) && (reaped ==> Reaped(s, a).value.1 == v)
    case Past => after == Past && !dies && !reaped
  }

  lemma JoinDeadPhase(s: Lwt, u: nat, t: nat, gone: nat)
    requires Inv(s, gone) && Allowed(s, Join(u)) && s.tcb[u].flag == Joinable && s.tcb[u].state == Dead
    ensures PhaseMove(s, Join(u), t)
  {
    LinkShape(s, u);
    JoinDeadShape(s, u);
    var s1 := LinkJoin(s, u);
    assert t in s.tcb ==> s1.tcb[t].state == s.tcb[t].state && s1.tcb[t].ret == s.tcb[t].ret;
  }

  /** Linking and blocking changes no thread's phase. */
  lemma BlockedPhase(s: Lwt, u: nat, t: nat)
    requires Shaped(s) && u in s.tcb && u != Cur(s) && s.tcb[u].state == Runnable && s.tcb[Cur(s)].state == Runnable
    ensures Shaped(LinkJoin(s, u)) && PhaseOf(BlockCur(LinkJoin(s, u), u), t) == PhaseOf(s, t)
  {
    LinkShape(s, u);
    var s2 := BlockCur(LinkJoin(s, u), u);
    assert s2.tcb.Keys == s.tcb.Keys && s2.tidCounter == s.tidCounter;
  }

  lemma DirectPhase(s: Lwt, u: nat, r: int, b: int, t: nat)
    requires Shaped(s) && u in s.tcb
    ensures Shaped(s.(runnable := r, blocked := b))
    ensures PhaseOf(Direct(s.(runnable := r, blocked := b), u), t) == PhaseOf(s, t)
  {
  }

  lemma JoinBlockPhase(s: Lwt, u: nat, t: nat, gone: nat)
    requires Inv(s, gone) && Allowed(s, Join(u)) && s.tcb[u].flag == Joinable && s.tcb[u].state == Runnable
    ensures PhaseMove(s, Join(u), t)
  {
    BlockedPhase(s, u, t);
    JoinBlockShape(s, u);
    hide Inv, Shaped, LinkJoin, BlockCur, PhaseOf, JoinStep;
    DirectPhase(BlockCur(LinkJoin(s, u), u), u, s.runnable - 1, s.blocked + 1, t);
  }

  lemma ResumePhase(s: Lwt, t: nat, gone: nat)
    requires Inv(s, gone) && Allowed(s, Resume)
    ensures PhaseMove(s, Resume, t)
  {
    assert Linked(s, Cur(s)) && Linked(s, s.tcb[Cur(s)].pc.target);
  }

  lemma LeavePhase(s: Lwt, v: int, t: nat, gone: nat)
    requires Inv(s, gone) && Allowed(s, Die(v)) && Leaves(s, Die(v))
    ensures PhaseMove(s, Die(v), t)
  {
    var s' := Leave(s);
    assert s'.tcb.Keys == s.tcb.Keys - {Cur(s)} && s'.tidCounter == s.tidCounter;
  }

  lemma MarkPhase(s: Lwt, v: int, t: nat)
    requires Core(s)
    ensures PhaseOf(Mark(s, v), t) == if t == Cur(s) then Ended(v) else PhaseOf(s, t)
    ensures Mark(s, v).tcb.Keys == s.tcb.Keys
  {
    assert Linked(s, Cur(s));
    var j := s.tcb[Cur(s)].joinedFrom;
    if j != 0 { assert Linked(s, j); }
    assert Mark(s, v).tcb.Keys == s.tcb.Keys;
  }

  lemma DiePhase(s: Lwt, v: int, t: nat, gone: nat)
    requires Inv(s, gone) && Allowed(s, Die(v)) && !Leaves(s, Die(v))
    ensures PhaseMove(s, Die(v), t)
  {
    MarkCore(s, v, gone);
    MarkPhase(s, v, t);
    assert PhaseOf(s, Cur(s)) == Alive;
    hide Core, Counted, Mark, PhaseOf, Linked, Shaped, Schedule;
    SchedulePhase(Mark(s, v), t);
  }

  lemma SchedulePhase(s: Lwt, t: nat)
    requires Shaped(s)
    ensures PhaseOf(Schedule(s), t) == PhaseOf(s, t)
  {
  }

  lemma PhaseStep(s: Lwt, a: Step, t: nat, gone: nat)
    requires Inv(s, gone) && Allowed(s, a)
    ensures PhaseMove(s, a, t)
  {
    match a
    case Create(flag) =>
    case Yield =>
    case YieldTo(u) =>
    case Join(u) =>
      if s.tcb[u].flag == Joinable {
        if s.tcb[u].state == Dead { JoinDeadPhase(s, u, t, gone); } else { JoinBlockPhase(s, u, t, gone); }
      }
    case Resume => ResumePhase(s, t, gone);
    case Die(v) => if Leaves(s, a) { LeavePhase(s, v, t, gone); } else { DiePhase(s, v, t, gone); }
  }

  /** A DEAD thread is never the thread that a step dispatches. */
  lemma DeadNeverRuns(s: Lwt, a: Step, t: nat, gone: nat)
    requires Inv(s, gone) && Allowed(s, a) && t in s.tcb && s.tcb[t].state == Dead
    ensures Shaped(Next(s, a)) && Cur(s) != t && Cur(Next(s, a)) != t
    ensures t in Next(s, a).tcb ==> Next(s, a).tcb[t].state == Dead
  {
    StepInv(s, a, gone);
    PhaseStep(s, a, t, gone);
    var s' := Next(s, a);
    assert t in s'.tcb ==> PhaseOf(s', t) == Ended(s.tcb[t].ret);
  }

  /** The values that thread t dies with as a joinable thread in this step, and that joins of it return:
      none or one. */
  ghost function DeathIn(s: Lwt, a: Step, t: nat): seq<int>
    requires Shaped(s) && Allowed(s, a)
  {
    if a.Die? && Cur(s) == t && !Leaves(s, a) then [a.value] else []
  }

  ghost function JoinIn(s: Lwt, a: Step, t: nat): seq<int>
    requires Shaped(s) && Allowed(s, a)
  {
    match Reaped(s, a)
    case Some(p) => if p.0 == t then [p.1] else []
    case None => []
  }

  /** From phase `before` to phase `after`, with these deaths and joins in between. */
  ghost predicate Tally(before: Phase, after: Phase, deaths: seq<int>, joined: seq<int>) {
    var died := (if before.Ended? then [before.value] else []) + deaths;
    && |died| <= 1
    && (joined == [] || joined == died)
    && (after.Ended? ==> died == [after.value] && joined == [])
    && (after == Past && before != Past ==> joined == died)
    && (before == Past || after in {Future, Alive} ==> died == joined == [])
    && (before == Past ==> after == Past)
    && (after == Future ==> before == Future)
  }

  lemma TallyStep(p: Phase, q: Phase, r: Phase, d1: seq<int>, j1: seq<int>, d2: seq<int>, j2: seq<int>)
    requires Tally(p, q, d1, j1) && Tally(q, r, d2, j2)
    ensures Tally(p, r, d1 + d2, j1 + j2)
  {
  }

  lemma StepTally(s: Lwt, a: Step, t: nat)
    requires Shaped(s) && Allowed(s, a) && PhaseMove(s, a, t)
    ensures Tally(PhaseOf(s, t), PhaseOf(Next(s, a), t), DeathIn(s, a, t), JoinIn(s, a, t))
  {
    hide Next, Shaped, PhaseOf, Reaped;
  }

  /** The values thread t died with as a joinable thread in a run, and the values that joins of it
      returned. */
  ghost function Deaths(s: Lwt, steps: seq<Step>, t: nat): seq<int>
    requires Run(s, steps)
    decreases |steps|
  {
    if |steps| == 0 then [] else DeathIn(s, steps[0], t) + Deaths(Next(s, steps[0]), steps[1..], t)
  }

  ghost function Joins(s: Lwt, steps: seq<Step>, t: nat): seq<int>
    requires Run(s, steps)
    decreases |steps|
  {
    if |steps| == 0 then [] else JoinIn(s, steps[0], t) + Joins(Next(s, steps[0]), steps[1..], t)
  }

  /** Over any run from any invariant state, a thread dies at most once, joins of it return exactly the
      value it died with, at most once and not before it died, and once joined it is gone. */
  lemma {:induction false} JoinDelivers(s: Lwt, steps: seq<Step>, t: nat, gone: nat)
    requires Inv(s, gone) && Run(s, steps)
    ensures Tally(PhaseOf(s, t), PhaseOf(Exec(s, steps), t), Deaths(s, steps, t), Joins(s, steps, t))
    decreases |steps|
  {
    hide Inv, Next, PhaseOf, PhaseMove, Tally, DeathIn, JoinIn;
    if |steps| > 0 {
      var s' := Next(s, steps[0]);
      PhaseStep(s, steps[0], t, gone);
      StepTally(s, steps[0], t);
      StepInv(s, steps[0], gone);
      JoinDelivers(s', steps[1..], t, if Leaves(s, steps[0]) then gone + 1 else gone);
      TallyStep(PhaseOf(s, t), PhaseOf(s', t), PhaseOf(Exec(s, steps), t),
                DeathIn(s, steps[0], t), JoinIn(s, steps[0], t), Deaths(s', steps[1..], t), Joins(s', steps[1..], t));
    } else {
      NothingHappens(PhaseOf(s, t));
    }
  }

  lemma NothingHappens(p: Phase)
    ensures Tally(p, p, [], [])
  {
  }

  /** In any run from the start: a thread dies at most once, as long as it is DEAD and in the ring nobody
      has joined it and it holds the value it died with, and once it is gone every joinable death has been
      delivered to exactly one join. */
  lemma JoinsFromStart(flag: Flag, steps: seq<Step>, t: nat)
    requires Run(Init(flag), steps)
    ensures var s, died, joined :=
              Exec(Init(flag), steps), Deaths(Init(flag), steps, t), Joins(Init(flag), steps, t);
            && |died| <= 1
            && if t !in s.tcb then joined == died
               else joined == [] && died == if s.tcb[t].state == Dead then [s.tcb[t].ret] else []
  {
    hide Exec, Deaths, Joins, Run, Inv, Shaped;
    InitInv(flag);
    JoinDelivers(Init(flag), steps, t, 0);
    var s := Exec(Init(flag), steps);
    assert PhaseOf(Init(flag), t) in {Future, Alive, Past};
    assert t !in s.tcb ==> PhaseOf(s, t) in {Future, Past};
  }

  // ----- bounded bypass -----

  /** Undirected yields, creates, deaths, joins that do not block, and returns from joins. */
  ghost predicate Undirected(s: Lwt, a: Step)
    requires Shaped(s) && Allowed(s, a)
  {
    && !a.YieldTo?
    && (a.Join? ==> s.tcb[a.target].flag == NoJoin || s.tcb[a.target].state == Dead)
  }

  ghost predicate UndirectedRun(s: Lwt, steps: seq<Step>)
    requires Run(s, steps)
    decreases |steps|
  {
    |steps| > 0 ==> Undirected(s, steps[0]) && UndirectedRun(Next(s, steps[0]), steps[1..])
  }

  ghost predicate Schedules(a: Step) {
    a.Yield? || a.Die?
  }

  ghost function ScheduleCount(steps: seq<Step>): nat {
    if |steps| == 0 then 0 else (if Schedules(steps[0]) then 1 else 0) + ScheduleCount(steps[1..])
  }

  /** Thread t is not the current one in any state of the run. */
  ghost predicate PassedOver(s: Lwt, steps: seq<Step>, t: nat)
    requires Run(s, steps)
    decreases |steps|
  {
    Cur(s) != t && (|steps| > 0 ==> PassedOver(Next(s, steps[0]), steps[1..], t))
  }

  /** In a sequence without repetitions an element is only at its index. */
  lemma IndexIs(ring: seq<nat>, i: nat)
    requires i < |ring| && multiset(ring)[ring[i]] == 1
    ensures IndexOf(ring, ring[i]) == i
  {
    var j := IndexOf(ring, ring[i]);
    if j < i {
      Repeats(ring, j, i);
    }
  }

  lemma RotateIndex(ring: seq<nat>, k: nat, t: nat)
    requires t in ring && k <= IndexOf(ring, t) && multiset(ring)[t] == 1
    ensures t in Rotate(ring, k) && IndexOf(Rotate(ring, k), t) == IndexOf(ring, t) - k
  {
    hide IndexOf;
    RotateShape(ring, k);
    var i := IndexOf(ring, t);
    assert Rotate(ring, k)[i - k] == t;
    IndexIs(Rotate(ring, k), i - k);
  }

  lemma WithoutIndex(ring: seq<nat>, gone: nat, t: nat)
    requires t in ring && gone in ring && gone != t && multiset(ring)[t] == multiset(ring)[gone] == 1
    ensures t in Without(ring, gone) && IndexOf(Without(ring, gone), t) <= IndexOf(ring, t)
  {
    hide IndexOf;
    WithoutShape(ring, gone);
    var i, j := IndexOf(ring, t), IndexOf(ring, gone);
    var r := Without(ring, gone);
    var i' := if i < j then i else i - 1;
    assert r[i'] == t;
    IndexIs(r, i');
  }

  /** The thread stays RUNNABLE and its distance shrinks by at least d. */
  ghost predicate Nearer(s: Lwt, s': Lwt, t: nat, d: nat)
    requires t in s.ring
  {
    && t in s'.tcb && t in s'.ring && s'.tcb[t].state == Runnable
    && IndexOf(s'.ring, t) <= IndexOf(s.ring, t) - d
  }

  ghost predicate Waiting(s: Lwt, t: nat)
    requires Shaped(s)
  {
    t in s.tcb && s.tcb[t].state == Runnable && t != Cur(s)
  }

  lemma CreateNearer(s: Lwt, flag: Flag, t: nat, gone: nat)
    requires Inv(s, gone) && Waiting(s, t)
    ensures Nearer(s, CreateStep(s, flag), t, 0)
  {
    var i := IndexOf(s.ring, t);
    CreateInv(s, flag, gone);
    var r := CreateStep(s, flag).ring;
    assert r[i] == t;
    IndexIs(r, i);
  }

  lemma ScheduleNearer(s: Lwt, t: nat, gone: nat)
    requires Core(s) && Counted(s, gone) && !s.tcb[Cur(s)].pc.InJoin? && Waiting(s, t)
    ensures Nearer(s, Schedule(s), t, 1)
  {
    ScheduleInv(s, gone);
    RotateIndex(s.ring, Scan(s.ring, s.tcb, 1), t);
    RotateShape(s.ring, Scan(s.ring, s.tcb, 1));
  }

  lemma JoinNearer(s: Lwt, u: nat, t: nat, gone: nat)
    requires Inv(s, gone) && Allowed(s, Join(u)) && s.tcb[u].flag == Joinable && s.tcb[u].state == Dead
    requires Waiting(s, t)
    ensures Nearer(s, JoinStep(s, u), t, 0)
  {
    JoinDeadShape(s, u);
    WithoutIndex(s.ring, u, t);
  }

  lemma ResumeNearer(s: Lwt, t: nat, gone: nat)
    requires Inv(s, gone) && Allowed(s, Resume) && Waiting(s, t)
    ensures Nearer(s, JoinLoop(s), t, 0)
  {
    assert Linked(s, Cur(s));
    WithoutIndex(s.ring, s.tcb[Cur(s)].pc.target, t);
  }

  lemma DieNearer(s: Lwt, v: int, t: nat, gone: nat)
    requires Inv(s, gone) && Allowed(s, Die(v)) && Waiting(s, t)
    ensures Nearer(s, DieStep(s, v), t, 1)
  {
    if Leaves(s, Die(v)) {
      var k := Scan(s.ring, s.tcb, 1);
      RotateIndex(s.ring, k, t);
      RotateShape(s.ring, k);
      WithoutIndex(Rotate(s.ring, k), Cur(s), t);
    } else {
      MarkCore(s, v, gone);
      ScheduleNearer(Mark(s, v), t, gone);
    }
  }

  /** One such step leaves a waiting RUNNABLE thread RUNNABLE, and a schedule brings it nearer. */
  lemma BypassStep(s: Lwt, a: Step, t: nat, gone: nat)
    requires Inv(s, gone) && Allowed(s, a) && Undirected(s, a) && Waiting(s, t)
    ensures Nearer(s, Next(s, a), t, if Schedules(a) then 1 else 0)
  {
    match a
    case Create(flag) => CreateNearer(s, flag, t, gone);
    case Yield => ScheduleNearer(s, t, gone);
    case Join(u) => if s.tcb[u].flag == Joinable { JoinNearer(s, u, t, gone); }
    case Resume => ResumeNearer(s, t, gone);
    case Die(v) => DieNearer(s, v, t, gone);
  }

  /** A RUNNABLE thread at ring distance d from the current one is dispatched within d schedules: a run
      that never dispatches it has fewer. */
  lemma {:induction false} BoundedBypass(s: Lwt, steps: seq<Step>, t: nat, gone: nat)
    requires Inv(s, gone) && Run(s, steps) && UndirectedRun(s, steps)
    requires t in s.tcb && s.tcb[t].state == Runnable && PassedOver(s, steps, t)
    ensures ScheduleCount(steps) < IndexOf(s.ring, t)
    decreases |steps|
  {
    if |steps| > 0 {
      BypassStep(s, steps[0], t, gone);
      StepInv(s, steps[0], gone);
      BoundedBypass(Next(s, steps[0]), steps[1..], t, if Leaves(s, steps[0]) then gone + 1 else gone);
    }
  }
}
