/** What becomes of a call of the scheduler library under any interleaving: it acts once, and it leaves by
    way of a switch exactly when it should. */
module CsCalls {
  import opened Options
  import opened SlModel
  import opened SlMemory
  import opened CsLock

  // ----- every call acts once -----

  /** The calls that thread c makes in a run. */
  ghost function Made(s: System, steps: seq<Step>, c: nat): seq<Call>
    requires Run(s, steps)
    decreases |steps|
  {
    if |steps| == 0 then []
    else (if steps[0].c == c && s.pc[c].Idle? then [steps[0].call] else []) + Made(NextStep(s, steps[0]), steps[1..], c)
  }

  /** What a call means for the policy; a directed yield leaves it alone. */
  ghost function Effect(c: nat, call: Call): seq<Op> {
    match call
    case DoBlock => [Block(c)]
    case DoWakeup(t) => [Wakeup(t)]
    case DoYield => [Yield(c)]
    case DoYieldTo(_) => []
  }

  ghost function Meaning(c: nat, calls: seq<Call>): seq<Op> {
    if |calls| == 0 then [] else Effect(c, calls[0]) + Meaning(c, calls[1..])
  }

  /** The policy operations that begin in steps of thread c. */
  ghost function OpsBy(s: System, steps: seq<Step>, c: nat): seq<Op>
    requires Run(s, steps)
    decreases |steps|
  {
    if |steps| == 0 then []
    else (if steps[0].c == c then OpIn(s, steps[0]) else []) + OpsBy(NextStep(s, steps[0]), steps[1..], c)
  }

  /** The call whose body is still to come. */
  ghost function ToCome(pc: Pc): seq<Call> {
    match pc
    case EnterLoad(ForCall(call)) => [call]
    case EnterTake(ForCall(call), _) => [call]
    case EnterMark(ForCall(call), _) => [call]
    case Inside(call) => [call]
    case _ => []
  }

  lemma ToComeStep(s: System, a: Step, c: nat)
    requires Enabled(s, a) && c in s.pc
    ensures var s' := NextStep(s, a);
            && c in s'.pc
            && (if a.c == c && s.pc[c].Idle? then ToCome(s.pc[c]) == [] && ToCome(s'.pc[c]) == [a.call]
                else if a.c == c && s.pc[c].Inside? then ToCome(s.pc[c]) == [s.pc[c].call] && ToCome(s'.pc[c]) == []
                else ToCome(s'.pc[c]) == ToCome(s.pc[c]))
  {
    hide Do, Body, Word, BodyAllowed;
  }

  lemma OneMeaning(c: nat, call: Call)
    ensures Meaning(c, [call]) == Effect(c, call) && Meaning(c, []) == []
  {
    assert [call][1..] == [];
  }

  lemma OpIsEffect(s: System, a: Step)
    requires Enabled(s, a)
    ensures OpIn(s, a) == if s.pc[a.c].Inside? then Effect(a.c, s.pc[a.c].call) else []
  {
  }

  lemma ActStep(s: System, a: Step, c: nat)
    requires Enabled(s, a) && c in s.pc
    ensures var s' := NextStep(s, a);
            && c in s'.pc
            && Meaning(c, ToCome(s.pc[c])) + (if a.c == c && s.pc[c].Idle? then Meaning(c, [a.call]) else [])
               == (if a.c == c then OpIn(s, a) else []) + Meaning(c, ToCome(s'.pc[c]))
  {
    ToComeStep(s, a, c);
    OpIsEffect(s, a);
    OneMeaning(c, a.call);
    if s.pc[c].Inside? { OneMeaning(c, s.pc[c].call); }
    hide NextStep, Meaning, ToCome, OpIn, Effect, Enabled;
    var x := Meaning(c, ToCome(s.pc[c]));
    assert x + [] == [] + x;
  }

  lemma {:induction false} MeaningAppend(c: nat, p: seq<Call>, q: seq<Call>)
    ensures Meaning(c, p + q) == Meaning(c, p) + Meaning(c, q)
  {
    if |p| > 0 {
      assert (p + q)[1..] == p[1..] + q;
      MeaningAppend(c, p[1..], q);
    } else {
      assert p + q == q;
    }
  }

  lemma Regroup(a: seq<Op>, n: seq<Op>, r: seq<Op>, o: seq<Op>, a1: seq<Op>, os: seq<Op>, last: seq<Op>)
    requires a + n == o + a1 && a1 + r == os + last
    ensures a + (n + r) == (o + os) + last
  {
    assert a + (n + r) == (a + n) + r;
    assert (o + a1) + r == o + (a1 + r);
    assert o + (os + last) == (o + os) + last;
  }

  lemma {:induction false} ActRun(s: System, steps: seq<Step>, c: nat)
    requires Run(s, steps) && c in s.pc
    ensures var s' := Exec(s, steps);
            && c in s'.pc
            && Meaning(c, ToCome(s.pc[c])) + Meaning(c, Made(s, steps, c))
               == OpsBy(s, steps, c) + Meaning(c, ToCome(s'.pc[c]))
    decreases |steps|
  {
    if |steps| > 0 {
      var a, s1 := steps[0], NextStep(s, steps[0]);
      ActStep(s, a, c);
      hide NextStep, Enabled, Meaning, ToCome;
      ActRun(s1, steps[1..], c);
      OneMeaning(c, a.call);
      var now := if a.c == c && s.pc[c].Idle? then [a.call] else [];
      var op := if a.c == c then OpIn(s, a) else [];
      var rest, last := Made(s1, steps[1..], c), Meaning(c, ToCome(Exec(s, steps).pc[c]));
      MeaningAppend(c, now, rest);
      Regroup(Meaning(c, ToCome(s.pc[c])), Meaning(c, now), Meaning(c, rest),
              op, Meaning(c, ToCome(s1.pc[c])), OpsBy(s1, steps[1..], c), last);
    } else {
      OneMeaning(c, DoYield);
    }
  }

  /** From a free lock, whatever the contention: each call of a thread acts on the policy exactly once, in
      the order of its calls, and as what it is; only the call it is in may still have to. */
  lemma CallsActOnce(mem: Mem, steps: seq<Step>, c: nat)
    requires c in mem.state && Run(Start(mem), steps)
    ensures var s := Exec(Start(mem), steps);
            && c in s.pc
            && Meaning(c, Made(Start(mem), steps, c)) == OpsBy(Start(mem), steps, c) + Meaning(c, ToCome(s.pc[c]))
  {
    ActRun(Start(mem), steps, c);
    OneMeaning(c, DoYield);
  }

  // ----- which calls switch -----

  /** A thread that goes to sleep, a wakeup that makes a thread ready, and a yield are followed by a
      switch. */
  ghost predicate MustSwitch(sl: Sl, c: nat, call: Call)
    requires c in sl.thd
  {
    match call
    case DoBlock => sl.thd[c].state != Woken
    case DoWakeup(t) => t in sl.thd && sl.thd[t].state == Blocked
    case DoYield => true
    case DoYieldTo(_) => true
  }

  /** On the way to a switch, and on the way back to the caller without one. */
  ghost predicate ToSwitch(pc: Pc) {
    match pc
    case Running(_, _, resched) => resched
    case EnterLoad(goal) => goal == Reschedule
    case EnterTake(goal, _) => goal == Reschedule
    case EnterMark(goal, _) => goal == Reschedule
    case ExitLoad(next, _) => next.SwitchTo?
    case ExitCas(next, _, _) => next.SwitchTo?
    case ToScheduler(next) => next.SwitchTo?
    case Idle => false
    case Inside(_) => false
    case _ => true
  }

  ghost predicate ToCaller(pc: Pc) {
    match pc
    case Running(_, _, resched) => !resched
    case ExitLoad(next, _) => next == Return
    case ExitCas(next, _, _) => next == Return
    case ToScheduler(next) => next == Return
    case Idle => true
    case _ => false
  }

  /** The first step of a body decides, by the policy state before the call. */
  lemma BodyDecides(s: System, a: Step, sl: Sl, call: Call)
    requires CsLock.Inv(s, sl) && Enabled(s, a) && s.pc[a.c] == Inside(call) && a.c in sl.thd
    ensures var pc := NextStep(s, a).pc[a.c]; if MustSwitch(sl, a.c, call) then ToSwitch(pc) else ToCaller(pc)
  {
    assert PcOk(s, a.c);
    SettledNow(s);
    SameState(s.mem, sl, a.c);
    var t := Subject(a.c, call);
    if t in sl.thd { SameState(s.mem, sl, t); }
    hide Represents, SlModel.Inv, Body;
    if t in s.mem.state { OnlyKnown(s.mem, sl); }
  }

  lemma OnlyKnown(m: Mem, sl: Sl)
    requires Represents(m, sl)
    ensures m.state.Keys == sl.thd.Keys
  {
  }

  /** Nothing but a switch that is not reported outdated takes a thread off its way there. */
  lemma WayStep(s: System, a: Step, c: nat)
    requires Enabled(s, a) && c in s.pc
    ensures c in NextStep(s, a).pc
    ensures ToSwitch(s.pc[c]) ==>
              || ToSwitch(NextStep(s, a).pc[c])
              || (s.pc[c].Switching? && a.c == c && !a.again && NextStep(s, a).pc[c] == Idle)
    ensures ToCaller(s.pc[c]) && s.pc[c] != Idle ==> ToCaller(NextStep(s, a).pc[c])
    ensures a.c != c ==> NextStep(s, a).pc[c] == s.pc[c]
  {
    hide Do, Body, Word, BodyAllowed, Begin;
  }

  /** Thread c holds the lock in every state of the run. */
  ghost predicate Holds(s: System, steps: seq<Step>, c: nat)
    requires Run(s, steps)
    decreases |steps|
  {
    s.lock.owner == c && (|steps| > 0 ==> Holds(NextStep(s, steps[0]), steps[1..], c))
  }

  lemma {:induction false} WayHeld(s: System, steps: seq<Step>, c: nat)
    requires LockOk(s) && Run(s, steps) && Holds(s, steps, c) && c != 0 && c in s.pc
    ensures LockOk(Exec(s, steps)) && c in Exec(s, steps).pc && Exec(s, steps).lock.owner == c
    ensures ToSwitch(s.pc[c]) ==> ToSwitch(Exec(s, steps).pc[c])
    ensures ToCaller(s.pc[c]) ==> ToCaller(Exec(s, steps).pc[c])
    decreases |steps|
  {
    if |steps| > 0 {
      LockInv(s, steps[0]);
      WayStep(s, steps[0], c);
      HolderIsInside(s, c);
      hide LockOk, Enabled, NextStep, ToSwitch, ToCaller;
      WayHeld(NextStep(s, steps[0]), steps[1..], c);
    }
  }

  lemma HolderIsInside(s: System, c: nat)
    requires LockOk(s) && s.lock.owner == c && c in s.pc
    ensures !s.pc[c].Switching? && s.pc[c] != Idle
  {
    assert PcOk(s, c);
  }

  /** Whatever happens between the first step of its body and its release, the release that ends a call is
      for a switch if and only if the call was a block without a wakeup before it, a wakeup of a BLOCKED
      thread, or a yield. */
  lemma SwitchesIff(s: System, sl: Sl, c: nat, call: Call, first: Step, steps: seq<Step>, last: Step)
    requires CsLock.Inv(s, sl) && c in s.pc && s.pc[c] == Inside(call) && c in sl.thd
    requires Enabled(s, first) && first.c == c
    requires Run(NextStep(s, first), steps) && Holds(NextStep(s, first), steps, c)
    requires Enabled(Exec(NextStep(s, first), steps), last)
    requires NextStep(Exec(NextStep(s, first), steps), last).lock.owner != c
    ensures var s' := Exec(NextStep(s, first), steps);
            && last.c == c && s'.pc[c].ExitCas?
            && (s'.pc[c].next.SwitchTo? <==> MustSwitch(sl, c, call))
  {
    assert PcOk(s, c);
    BodyDecides(s, first, sl, call);
    LockInv(s, first);
    WayStep(s, first, c);
    var s1 := NextStep(s, first);
    hide Run, Exec, NextStep, Represents, SlModel.Inv, MustSwitch, Enabled;
    WayHeld(s1, steps, c);
    SectionSteps(Exec(s1, steps), last);
  }

  /** A switch of thread c that is not reported outdated. */
  ghost predicate Switches(s: System, steps: seq<Step>, c: nat)
    requires Run(s, steps) && c in s.pc
    decreases |steps|
  {
    |steps| > 0 &&
      ((s.pc[c].Switching? && steps[0].c == c && !steps[0].again)
       || (WayStep(s, steps[0], c); Switches(NextStep(s, steps[0]), steps[1..], c)))
  }

  lemma {:induction false} WayEnds(s: System, steps: seq<Step>, c: nat)
    requires Run(s, steps) && c in s.pc && ToSwitch(s.pc[c])
    requires c in Exec(s, steps).pc && Exec(s, steps).pc[c] == Idle
    ensures Switches(s, steps, c)
    decreases |steps|
  {
    WayStep(s, steps[0], c);
    if ToSwitch(NextStep(s, steps[0]).pc[c]) {
      hide NextStep, Enabled, ToSwitch;
      WayEnds(NextStep(s, steps[0]), steps[1..], c);
    }
  }

  /** A thread that goes to sleep does not return to its caller before it has switched away: once the body
      of its `sl_thd_block` has begun and no wakeup came first, it is back in its own code only after a
      switch that was not outdated.  The same for every call that must switch. */
  lemma SleepsBeforeReturning(s: System, sl: Sl, c: nat, call: Call, first: Step, steps: seq<Step>)
    requires CsLock.Inv(s, sl) && c in s.pc && s.pc[c] == Inside(call) && c in sl.thd && MustSwitch(sl, c, call)
    requires Enabled(s, first) && first.c == c && Run(NextStep(s, first), steps)
    ensures c in NextStep(s, first).pc
    ensures var s' := Exec(NextStep(s, first), steps);
            c in s'.pc && s'.pc[c] == Idle ==> Switches(NextStep(s, first), steps, c)
  {
    BodyDecides(s, first, sl, call);
    WayStep(s, first, c);
    var s1 := NextStep(s, first);
    hide NextStep, Enabled, ToSwitch, CsLock.Inv;
    if c in Exec(s1, steps).pc && Exec(s1, steps).pc[c] == Idle { WayEnds(s1, steps, c); }
  }
}
