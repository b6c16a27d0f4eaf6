/** The scheduler critical section (sl.h, sl.c) as an interleaving protocol.

    Any number of threads run.  Each load and each compare-and-swap of the lock word, and inside a section
    each load and store of a thread's state, its priority and the list links, is a step of its own, and
    any thread may take the next step, which is all that is assumed of `cos_defswitch`.  That the sections
    nevertheless act on the policy one whole operation at a time is proved, not built in.
  */
module CsLock {
  import opened Options
  import opened SlModel
  import opened SlMemory
  import SlInvariant
  import SlOrder

  const OWNERS := 0x8000_0000

  /** `union sl_cs_intern`: a 31-bit owner, 0 for none, and a contention bit. */
  datatype LockWord = LockWord(owner: nat, contention: bool)

  const FREE := LockWord(0, false)

  /** The machine word on which `ps_cas` works. */
  function Packed(w: LockWord): nat {
    w.owner + if w.contention then OWNERS else 0
  }

  lemma PackedIsInjective(v: LockWord, w: LockWord)
    requires v.owner < OWNERS && w.owner < OWNERS
    ensures Packed(v) == Packed(w) <==> v == w
    ensures Packed(v) < 0x1_0000_0000 && (v.contention <==> Packed(v) >= 0x8000_0000)
  {
  }

  /** What a thread does once it owns the lock: the body of a call, or another try of
      `sl_cs_exit_schedule`. */
  datatype Goal = ForCall(call: Call) | Reschedule

  /** What follows `sl_cs_exit`: the call returns, or it switches to the thread picked, None being the idle
      thread; `asked` is the thread that a directed yield asked for. */
  datatype After = Return | SwitchTo(t: Option<nat>, asked: Option<nat>)

  datatype Pc =
    | Idle
    // sl_cs_enter
    | EnterLoad(goal: Goal)
    | EnterTake(goal: Goal, cached: LockWord)
    | EnterMark(goal: Goal, cached: LockWord)
    // between enter and exit: the first load of a body, and the rest of it
    | Inside(call: Call)
    | Running(regs: Regs, code: seq<Instr>, resched: bool)
    // sl_cs_exit_schedule_nospin_arg: the test, the state of the thread asked for, and the scan of the heads
    | TestOwner(to: Option<nat>)
    | PickTo(to: Option<nat>)
    | Scan(to: Option<nat>, i: nat)
    | First(to: Option<nat>, i: nat)
    // sl_cs_exit; `failed` counts the compare-and-swaps that have failed in this release
    | ExitLoad(next: After, failed: nat)
    | ExitCas(next: After, cached: LockWord, failed: nat)
    // after the release: the switch to the scheduler thread, and the switch to the thread picked
    | ToScheduler(next: After)
    | Switching(t: Option<nat>)

  datatype System = System(lock: LockWord, pc: map<nat, Pc>, mem: Mem)

  /** A step of thread c, which makes this call if it is idle.  `again` is whether `cos_defswitch` reports
      an outdated choice. */
  datatype Step = Step(c: nat, call: Call, again: bool)

  /** The code between enter and exit. */
  ghost predicate InSection(pc: Pc) {
    TouchesMemory(pc) || pc.ExitLoad? || pc.ExitCas?
  }

  /** The next step of a thread with this pc may load or store a thread's state, its priority or a link. */
  ghost predicate TouchesMemory(pc: Pc) {
    pc.Inside? || pc.Running? || pc.PickTo? || pc.Scan? || pc.First?
  }

  /** The assertions of the bodies on the state they load, and that only a thread that is not BLOCKED runs. */
  ghost predicate BodyAllowed(m: Mem, c: nat, call: Call) {
    match call
    case DoBlock => c in m.state && m.state[c] != Blocked
    case DoWakeup(t) => t in m.state ==> m.state[t] != Woken
    case DoYield => c in m.state && m.state[c] != Blocked
    case DoYieldTo(to) => to in m.state
  }

  /** Whether the body ends in `sl_cs_exit_schedule` rather than in `sl_cs_exit`. */
  ghost predicate Reschedules(call: Call, state: SlState) {
    match call
    case DoBlock => state != Woken
    case DoWakeup(_) => state != Runnable
    case _ => true
  }

  /** The first step of a body. */
  ghost function Begin(m: Mem, c: nat, call: Call): Pc {
    var t := Subject(c, call);
    if call.DoYieldTo? then TestOwner(Some(call.to))
    else if t !in m.state then ExitLoad(Return, 0)
    else Running(Regs(t, 0, Of(t), Of(t)), Body(call, m.state[t]), Reschedules(call, m.state[t]))
  }

  ghost predicate Enabled(s: System, a: Step) {
    && a.c in s.pc
    && (s.pc[a.c].Inside? ==> BodyAllowed(s.mem, a.c, s.pc[a.c].call))
  }

  ghost function Goes(s: System, c: nat, pc: Pc): System {
    s.(pc := s.pc[c := pc])
  }

  ghost function NextStep(s: System, a: Step): System
    requires Enabled(s, a)
  {
    var c := a.c;
    match s.pc[c]
    case Idle => Goes(s, c, EnterLoad(ForCall(a.call)))
    case EnterLoad(goal) =>
      if s.lock.owner == 0 then Goes(s, c, EnterTake(goal, s.lock))
      else if !s.lock.contention then Goes(s, c, EnterMark(goal, s.lock))
      else s
    case EnterMark(goal, cached) =>
      var lock := if s.lock == cached then LockWord(cached.owner, true) else s.lock;
      Goes(s.(lock := lock), c, EnterLoad(goal))
    case EnterTake(goal, cached) =>
      if s.lock == cached then
        Goes(s.(lock := LockWord(c, cached.contention)), c,
             match goal case ForCall(call) => Inside(call) case Reschedule => PickTo(None))
      else Goes(s, c, EnterLoad(goal))
    case Inside(call) => Goes(s, c, Begin(s.mem, c, call))
    case Running(regs, code, resched) =>
      if code == [] then Goes(s, c, if resched then TestOwner(None) else ExitLoad(Return, 0))
      else
        var (mem, regs') := Do(s.mem, regs, code[0]);
        Goes(s.(mem := mem), c, Running(regs', code[1..], resched))
    case TestOwner(to) => Goes(s, c, if s.lock.owner == c then PickTo(to) else EnterLoad(Reschedule))
    case PickTo(to) =>
      Goes(s, c, if to.Some? && to.value in s.mem.state && s.mem.state[to.value] == Runnable
                 then ExitLoad(SwitchTo(to, to), 0) else Scan(to, 0))
    case Scan(to, i) =>
      Goes(s, c, if i >= NPRIOS then ExitLoad(SwitchTo(None, to), 0)
                 else if Word(s.mem.n, Head(i)) == Head(i) then Scan(to, i + 1) else First(to, i))
    case First(to, i) =>
      var l := Word(s.mem.n, Head(i));
      Goes(s, c, ExitLoad(SwitchTo(if l.Of? then Some(l.t) else None, to), 0))
    case ExitLoad(next, failed) => Goes(s, c, ExitCas(next, s.lock, failed))
    case ExitCas(next, cached, failed) =>
      if s.lock != cached then Goes(s, c, ExitLoad(next, failed + 1))
      else Goes(s.(lock := FREE), c, if cached.contention then ToScheduler(next) else Released(next))
    case ToScheduler(next) => Goes(s, c, Released(next))
    case Switching(_) => Goes(s, c, if a.again then TestOwner(None) else Idle)
  }

  ghost function Released(next: After): Pc {
    match next case Return => Idle case SwitchTo(t, _) => Switching(t)
  }

  // ----- the invariant -----

  /** The memory as it will be when the body that is under way is through. */
  ghost function Settled(s: System): Mem {
    var c := s.lock.owner;
    if c in s.pc && s.pc[c].Running? then RunCode(s.mem, s.pc[c].regs, s.pc[c].code).0 else s.mem
  }

  /** The policy operation that begins in this step. */
  ghost function OpIn(s: System, a: Step): seq<Op>
    requires Enabled(s, a)
  {
    if s.pc[a.c].Inside? && !s.pc[a.c].call.DoYieldTo? then [OpOf(a.c, s.pc[a.c].call)] else []
  }

  ghost predicate IsRunnable(sl: Sl, to: Option<nat>) {
    to.Some? && to.value in sl.thd && sl.thd[to.value].state == Runnable
  }

  /** The thread that `sl_cs_exit_schedule_nospin_arg` should pick: the one asked for if it is RUNNABLE,
      otherwise the policy's choice. */
  ghost function Picked(sl: Sl, asked: Option<nat>): Option<nat> {
    if IsRunnable(sl, asked) then asked else Schedule(sl)
  }

  /** How thread c's place in the code goes with the policy, if it is in the section. */
  ghost predicate ChoiceOk(sl: Sl, pc: Pc) {
    && |sl.queues| == NPRIOS
    && (pc.Scan? ==> pc.i <= NPRIOS && !IsRunnable(sl, pc.to) && Schedule(sl) == FirstFrom(sl.queues, pc.i))
    && (pc.First? ==>
          pc.i < NPRIOS && !IsRunnable(sl, pc.to) && sl.queues[pc.i] != [] && Schedule(sl) == Some(sl.queues[pc.i][0]))
    && ((pc.ExitLoad? || pc.ExitCas?) && pc.next.SwitchTo? ==> pc.next.t == Picked(sl, pc.next.asked))
  }

  /** How it goes with the lock word. */
  ghost predicate PcOk(s: System, c: nat)
    requires c in s.pc
  {
    var pc := s.pc[c];
    && 0 < c < OWNERS
    && (InSection(pc) ==> s.lock.owner == c)
    && (s.lock.owner == c ==> InSection(pc) || pc.TestOwner?)
    && (pc.TestOwner? && pc.to.Some? ==> s.lock.owner == c)
    && (pc.EnterTake? ==> pc.cached == FREE)
    && (pc.EnterMark? ==> pc.cached.owner != 0 && !pc.cached.contention)
    && (pc.ExitLoad? ==> pc.failed <= 1 && (pc.failed == 1 ==> s.lock.contention))
    && (pc.ExitCas? ==>
          && pc.failed <= 1 && pc.cached.owner == c
          && (pc.cached.contention ==> s.lock.contention)
          && (pc.failed == 1 ==> pc.cached.contention))
  }

  /** The lock protocol by itself. */
  ghost predicate LockOk(s: System) {
    && (s.lock.owner == 0 ==> s.lock == FREE)
    && (s.lock.owner != 0 ==> s.lock.owner in s.pc)
    && (forall c {:trigger PcOk(s, c)} :: c in s.pc ==> PcOk(s, c))
  }

  /** The protocol, and the memory standing for the policy state sl. */
  ghost predicate Inv(s: System, sl: Sl) {
    && LockOk(s) && SlModel.Inv(sl) && Represents(Settled(s), sl)
    && (s.lock.owner in s.pc ==> ChoiceOk(sl, s.pc[s.lock.owner]))
  }

  /** What one step of thread c does to the lock word. */
  lemma LockStep(s: System, a: Step)
    requires Enabled(s, a) && PcOk(s, a.c) && (s.lock.owner == 0 ==> s.lock == FREE)
    ensures var l, l', c := s.lock, NextStep(s, a).lock, a.c;
            || l' == l
            || (l == FREE && l' == LockWord(c, false))
            || (l.owner == c && l' == FREE)
            || (l.owner !in {0, c} && l' == LockWord(l.owner, true))
  {
  }

  lemma OwnPc(s: System, a: Step)
    requires Enabled(s, a) && PcOk(s, a.c) && (s.lock.owner == 0 ==> s.lock == FREE)
    ensures PcOk(NextStep(s, a), a.c)
  {
    hide Do, Body, Word;
  }

  lemma OtherPc(s: System, a: Step, c: nat)
    requires Enabled(s, a) && PcOk(s, a.c) && (s.lock.owner == 0 ==> s.lock == FREE)
    requires c in s.pc && c != a.c && PcOk(s, c)
    ensures c in NextStep(s, a).pc && NextStep(s, a).pc[c] == s.pc[c] && PcOk(NextStep(s, a), c)
  {
    LockStep(s, a);
    hide Do, Body, Word, Begin, BodyAllowed;
  }

  /** Every step of any thread keeps the lock protocol. */
  lemma LockInv(s: System, a: Step)
    requires LockOk(s) && Enabled(s, a)
    ensures LockOk(NextStep(s, a))
  {
    hide PcOk;
    var s' := NextStep(s, a);
    assert PcOk(s, a.c);
    LockStep(s, a);
    OwnPc(s, a);
    forall c | c in s'.pc ensures PcOk(s', c) { if c != a.c { OtherPc(s, a, c); } }
  }

  /** At most one thread is between enter and exit, and it is the one the lock word names. */
  lemma MutualExclusion(s: System, c: nat, d: nat)
    requires LockOk(s) && c in s.pc && d in s.pc && InSection(s.pc[c]) && InSection(s.pc[d])
    ensures c == d == s.lock.owner
  {
    assert PcOk(s, c) && PcOk(s, d);
  }

  /** The words of the policy are only loaded or stored by the owner: in the bodies, in the first try of
      `sl_cs_exit_schedule` and in every retry.  No other thread's step changes them. */
  lemma PolicyNeedsOwner(s: System, a: Step)
    requires LockOk(s) && Enabled(s, a)
    ensures TouchesMemory(s.pc[a.c]) ==> s.lock.owner == a.c
    ensures NextStep(s, a).mem != s.mem ==> s.lock.owner == a.c && s.pc[a.c].Running?
  {
    assert PcOk(s, a.c);
  }

  /** The assertion against recursive locking holds: a thread that enters is not the owner. */
  lemma NeverRecursive(s: System, c: nat)
    requires LockOk(s) && c in s.pc && s.pc[c].EnterLoad?
    ensures s.lock.owner != c
  {
    assert PcOk(s, c);
  }

  /** The lock word while a section lasts and when it ends.  Only the owner releases; as long as it does
      not, the owner stays and the contention bit is never cleared.  The release goes by way of the
      scheduler thread exactly when the bit is set. */
  lemma SectionSteps(s: System, a: Step)
    requires LockOk(s) && Enabled(s, a) && s.lock.owner != 0
    ensures var s' := NextStep(s, a);
            if s'.lock.owner == s.lock.owner then s.lock.contention ==> s'.lock.contention
            else
              && a.c == s.lock.owner && s'.lock == FREE && s.pc[a.c].ExitCas?
              && (s'.pc[a.c].ToScheduler? <==> s.lock.contention)
  {
    assert PcOk(s, a.c);
  }

  /** A release retries at most once: a second failure of its compare-and-swap is impossible. */
  lemma ReleaseRetriesOnce(s: System, c: nat)
    requires LockOk(s) && c in s.pc && s.pc[c].ExitCas?
    ensures s.lock != s.pc[c].cached ==> s.pc[c].failed == 0 && s.lock == LockWord(c, true)
  {
    assert PcOk(s, c);
  }

  // ----- the policy in memory -----

  /** The policy state after the operation that begins in a step, if one does. */
  ghost function Applied(sl: Sl, ops: seq<Op>): Sl
    requires |ops| > 0 ==> Shaped(sl) && Allowed(sl, ops[0])
  {
    if |ops| == 0 then sl else Next(sl, ops[0])
  }

  /** The owner is not in the middle of a body when it is anywhere else in its section. */
  lemma SettledNow(s: System)
    requires LockOk(s) && (s.lock.owner in s.pc ==> !s.pc[s.lock.owner].Running?)
    ensures Settled(s) == s.mem
  {
  }

  /** The assertions of the body about to begin hold of the policy state, too. */
  lemma OpAllowed(s: System, a: Step, sl: Sl)
    requires Inv(s, sl) && Enabled(s, a) && OpIn(s, a) != []
    ensures Shaped(sl) && Allowed(sl, OpIn(s, a)[0]) && a.c == s.lock.owner && Settled(s) == s.mem
    ensures |OpIn(s, a)| == 1
  {
    assert PcOk(s, a.c);
    var t := Subject(a.c, s.pc[a.c].call);
    if t in sl.thd { SameState(s.mem, sl, t); }
  }

  lemma ZeroIsNobody(s: System)
    requires LockOk(s)
    ensures 0 !in s.pc
  {
    forall c | c in s.pc ensures c > 0 { assert PcOk(s, c); }
  }

  /** When a body begins, the memory is on its way to the next policy state. */
  lemma BeginSettles(s: System, a: Step, sl: Sl)
    requires Inv(s, sl) && Enabled(s, a) && s.pc[a.c].Inside?
    requires |OpIn(s, a)| > 0 ==> Shaped(sl) && Allowed(sl, OpIn(s, a)[0])
    ensures Represents(Settled(NextStep(s, a)), Applied(sl, OpIn(s, a)))
  {
    assert PcOk(s, a.c);
    var call := s.pc[a.c].call;
    var t := Subject(a.c, call);
    assert Settled(s) == s.mem;
    if !call.DoYieldTo? && t in s.mem.state {
      BodyIsOperation(s.mem, sl, a.c, call, Regs(t, 0, Of(t), Of(t)));
    }
  }

  /** No other step changes what the memory is on its way to. */
  lemma SettledStays(s: System, a: Step)
    requires LockOk(s) && Enabled(s, a) && !s.pc[a.c].Inside?
    ensures Settled(NextStep(s, a)) == Settled(s)
  {
    assert PcOk(s, a.c);
    ZeroIsNobody(s);
    LockStep(s, a);
    hide Do, Body, BodyAllowed, Word;
  }

  /** What the owner has found out about the policy's choice, one load at a time. */
  lemma ChoiceStep(s: System, a: Step, sl: Sl)
    requires Inv(s, sl) && Enabled(s, a) && a.c == s.lock.owner && NextStep(s, a).lock.owner == a.c
    requires !s.pc[a.c].Inside?
    ensures ChoiceOk(sl, NextStep(s, a).pc[a.c])
  {
    assert PcOk(s, a.c);
    var pc := s.pc[a.c];
    if pc.PickTo? || pc.Scan? || pc.First? {
      SettledNow(s);
      if pc.PickTo? && pc.to.Some? && pc.to.value in sl.thd { SameState(s.mem, sl, pc.to.value); }
      if !pc.PickTo? && pc.i < NPRIOS { HeadReads(s.mem, sl, pc.i); }
    }
    hide Do, Body, BodyAllowed, Word, SlModel.Inv;
  }

  /** Where the owner is right after taking the lock, or after the first step of a body. */
  lemma FreshChoice(s: System, a: Step, sl: Sl)
    requires LockOk(s) && Enabled(s, a) && |sl.queues| == NPRIOS && NextStep(s, a).lock.owner == a.c
    requires s.lock.owner != a.c || s.pc[a.c].Inside?
    ensures ChoiceOk(sl, NextStep(s, a).pc[a.c])
  {
    assert PcOk(s, a.c);
    hide Do, Body, BodyAllowed, Word;
  }

  lemma OwnerChoice(s: System, a: Step, sl: Sl, sl': Sl)
    requires Inv(s, sl) && Enabled(s, a) && |sl'.queues| == NPRIOS && (s.pc[a.c].Inside? || sl' == sl)
    ensures var s' := NextStep(s, a); s'.lock.owner in s'.pc ==> ChoiceOk(sl', s'.pc[s'.lock.owner])
  {
    var s' := NextStep(s, a);
    LockInv(s, a);
    hide ChoiceOk, SlModel.Inv, Represents;
    assert PcOk(s, a.c);
    if s'.lock.owner == a.c {
      if s.lock.owner == a.c && !s.pc[a.c].Inside? { ChoiceStep(s, a, sl); } else { FreshChoice(s, a, sl'); }
    } else if s'.lock.owner in s'.pc {
      LockStep(s, a);
      ZeroIsNobody(s);
      assert s'.lock.owner == s.lock.owner && PcOk(s, s.lock.owner);
    }
  }

  /** Every step of any thread keeps the memory in step with a policy state, which moves by whole
      operations: one when a body begins, none otherwise. */
  lemma StepInv(s: System, a: Step, sl: Sl)
    requires Inv(s, sl) && Enabled(s, a)
    ensures |OpIn(s, a)| > 0 ==> Shaped(sl) && Allowed(sl, OpIn(s, a)[0])
    ensures Inv(NextStep(s, a), Applied(sl, OpIn(s, a)))
  {
    LockInv(s, a);
    if OpIn(s, a) != [] {
      OpAllowed(s, a, sl);
      SlInvariant.StepInv(sl, OpIn(s, a)[0]);
    }
    var sl' := Applied(sl, OpIn(s, a));
    assert |sl'.queues| == NPRIOS;
    if s.pc[a.c].Inside? { BeginSettles(s, a, sl); } else { SettledStays(s, a); }
    OwnerChoice(s, a, sl, sl');
  }

  /** Choosing a thread and releasing the lock are one atomic act: at the compare-and-swap that releases
      it, the choice is what the policy says then.  After an undirected call that is the policy's first
      thread, after a directed one the thread asked for, if it is RUNNABLE. */
  lemma ChoiceIsCurrent(s: System, a: Step, sl: Sl)
    requires Inv(s, sl) && Enabled(s, a) && s.lock.owner != 0 && NextStep(s, a).lock.owner == 0
    ensures var pc := s.pc[a.c];
            && pc.ExitCas? && Represents(s.mem, sl)
            && (pc.next.SwitchTo? ==> pc.next.t == Picked(sl, pc.next.asked))
  {
    assert PcOk(s, a.c);
    SettledNow(s);
  }

  // ----- runs -----

  ghost predicate Run(s: System, steps: seq<Step>)
    decreases |steps|
  {
    |steps| > 0 ==> Enabled(s, steps[0]) && Run(NextStep(s, steps[0]), steps[1..])
  }

  ghost function Exec(s: System, steps: seq<Step>): System
    requires Run(s, steps)
    decreases |steps|
  {
    if |steps| == 0 then s else Exec(NextStep(s, steps[0]), steps[1..])
  }

  /** The policy operations that begin in a run, in order. */
  ghost function Ops(s: System, steps: seq<Step>): seq<Op>
    requires Run(s, steps)
    decreases |steps|
  {
    if |steps| == 0 then [] else OpIn(s, steps[0]) + Ops(NextStep(s, steps[0]), steps[1..])
  }

  /** Nobody is in the scheduler. */
  ghost function Start(mem: Mem): System {
    System(FREE, map c | c in mem.state :: Idle, mem)
  }

  ghost predicate Capabilities(sl: Sl) {
    forall t :: t in sl.thd ==> 0 < t < OWNERS
  }

  lemma StartInv(mem: Mem, sl: Sl)
    requires Represents(mem, sl) && SlModel.Inv(sl) && Capabilities(sl)
    ensures Inv(Start(mem), sl)
  {
    var s := Start(mem);
    forall c | c in s.pc ensures PcOk(s, c) {}
  }

  /** Every interleaving of the loads and stores of any number of threads does to the policy what the
      operations that have begun do one after the other, each whole. */
  lemma {:induction false} RunInv(s: System, steps: seq<Step>, sl: Sl)
    requires Inv(s, sl) && Run(s, steps)
    ensures SlInvariant.Run(sl, Ops(s, steps))
    ensures Inv(Exec(s, steps), SlInvariant.Exec(sl, Ops(s, steps)))
    decreases |steps|
  {
    if |steps| > 0 {
      StepInv(s, steps[0], sl);
      var s', op := NextStep(s, steps[0]), OpIn(s, steps[0]);
      RunInv(s', steps[1..], Applied(sl, op));
      var rest := Ops(s', steps[1..]);
      hide Inv, NextStep, Enabled, Next;
      if op == [] { assert op + rest == rest; } else { assert (op + rest)[1..] == rest; }
    }
  }

  /** The sections are atomic: after any run, when nobody holds the lock the memory stands for the state
      that a sequence of whole operations leads to; while somebody does, it will once the body under way
      is through. */
  lemma SectionsAreAtomic(mem: Mem, sl: Sl, steps: seq<Step>)
    requires Represents(mem, sl) && SlModel.Inv(sl) && Capabilities(sl) && Run(Start(mem), steps)
    ensures var s, ops := Exec(Start(mem), steps), Ops(Start(mem), steps);
            && SlInvariant.Run(sl, ops)
            && Represents(Settled(s), SlInvariant.Exec(sl, ops))
            && (s.lock.owner == 0 ==> Represents(s.mem, SlInvariant.Exec(sl, ops)))
  {
    hide Run, Exec, Ops, SlInvariant.Run, SlInvariant.Exec, Represents, SlModel.Inv;
    StartInv(mem, sl);
    RunInv(Start(mem), steps, sl);
    ZeroIsNobody(Exec(Start(mem), steps));
  }

  /** For any threads with capabilities below 2^31, any interleaving keeps mutual exclusion. */
  lemma SafeUnderAllInterleavings(mem: Mem, sl: Sl, steps: seq<Step>, c: nat, d: nat)
    requires Represents(mem, sl) && SlModel.Inv(sl) && Capabilities(sl) && Run(Start(mem), steps)
    ensures var s := Exec(Start(mem), steps);
            c in s.pc && d in s.pc && InSection(s.pc[c]) && InSection(s.pc[d]) ==> c == d == s.lock.owner
  {
    hide Run, Exec, Ops, SlInvariant.Run, SlInvariant.Exec, Represents, SlModel.Inv;
    StartInv(mem, sl);
    RunInv(Start(mem), steps, sl);
    var s := Exec(Start(mem), steps);
    if c in s.pc && d in s.pc && InSection(s.pc[c]) && InSection(s.pc[d]) { MutualExclusion(s, c, d); }
  }

  /** No interleaving loses a wakeup: when nobody holds the lock, the state word of a thread, and whether
      its link is in a list, are what the wakeups and blocks so far say. */
  lemma WakeupsSurviveContention(mem: Mem, sl: Sl, steps: seq<Step>, t: nat)
    requires Represents(mem, sl) && SlModel.Inv(sl) && Capabilities(sl) && Run(Start(mem), steps)
    requires t in sl.thd && sl.thd[t].state == Runnable && sl.thd[t].placed
    requires Exec(Start(mem), steps).lock.owner == 0
    ensures var m, ops := Exec(Start(mem), steps).mem, Ops(Start(mem), steps);
            var balance := SlInvariant.Count(ops, Wakeup(t)) - SlInvariant.Count(ops, Block(t));
            && t in m.state
            && balance == (match m.state[t] case Blocked => -1 case Runnable => 0 case Woken => 1)
            && (Word(m.n, Of(t)) != Of(t) <==> balance >= 0)
  {
    hide Run, Exec, Ops, SlInvariant.Run, SlInvariant.Exec, SlInvariant.Count, Represents, SlModel.Inv, Queued;
    SectionsAreAtomic(mem, sl, steps);
    var ops, m := Ops(Start(mem), steps), Exec(Start(mem), steps).mem;
    SlInvariant.WakeupsNeverLost(sl, ops, t);
    SlInvariant.RunCounts(sl, ops, t);
    var sl' := SlInvariant.Exec(sl, ops);
    InvApart(sl');
    SameState(m, sl', t);
    QueuedReads(m, sl', t);
  }

  /** Under any interleaving the compare-and-swap that releases the lock for a switch switches to the thread
      that has been queued longest in the best queue that is not empty, unless a thread is asked for and
      RUNNABLE.  The policy operations before the run, such as the setting of priorities, are `before`. */
  lemma LongestQueuedSwitched(before: seq<Op>, mem: Mem, steps: seq<Step>, a: Step)
    requires SlInvariant.Run(Init(), before) && Capabilities(SlInvariant.Exec(Init(), before))
    requires Represents(mem, SlInvariant.Exec(Init(), before)) && Run(Start(mem), steps)
    requires var s := Exec(Start(mem), steps);
             Enabled(s, a) && s.lock.owner != 0 && NextStep(s, a).lock.owner == 0
    ensures var s, sl0, ops := Exec(Start(mem), steps), SlInvariant.Exec(Init(), before), Ops(Start(mem), steps);
            && SlInvariant.Run(sl0, ops) && s.pc[a.c].ExitCas?
            && var next, sl := s.pc[a.c].next, SlInvariant.Exec(sl0, ops);
               next.SwitchTo? ==>
               if IsRunnable(sl, next.asked) then next.t == next.asked
               else match next.t
                    case None => forall i :: 0 <= i < |sl.queues| ==> sl.queues[i] == []
                    case Some(t) =>
                      exists p: nat ::
                        SlOrder.LongestQueued(sl, SlOrder.Stamps(sl0, ops, SlOrder.Arrivals(before), |before|), p, t)
  {
    hide *;
    var sl0, ops := SlInvariant.Exec(Init(), before), Ops(Start(mem), steps);
    SlInvariant.InitInv();
    SlOrder.EmptyInOrder();
    SlOrder.RunInOrder(Init(), before, map[], 0);
    ArrivalsAre(before);
    StartInv(mem, sl0);
    RunInv(Start(mem), steps, sl0);
    var s, sl := Exec(Start(mem), steps), SlInvariant.Exec(sl0, ops);
    ChoiceIsCurrent(s, a, sl);
    SlOrder.RunInOrder(sl0, ops, SlOrder.Arrivals(before), |before|);
    SlOrder.OrderedSchedule(sl, SlOrder.Stamps(sl0, ops, SlOrder.Arrivals(before), |before|), |before| + |ops|);
    PickedIs(s, a, sl);
  }

  lemma ArrivalsAre(ops: seq<Op>)
    requires SlInvariant.Run(Init(), ops)
    ensures SlOrder.Arrivals(ops) == SlOrder.Stamps(Init(), ops, map[], 0)
  {
  }

  lemma PickedIs(s: System, a: Step, sl: Sl)
    requires Enabled(s, a) && s.pc[a.c].ExitCas?
    ensures a.c in s.pc
    ensures var next := s.pc[a.c].next;
            next.SwitchTo? ==> Picked(sl, next.asked) == if IsRunnable(sl, next.asked) then next.asked else Schedule(sl)
  {
  }

  /** At the start of the run c owns the lock with the bit set, and at its end c does not own it. */
  ghost predicate ContendedRelease(s: System, steps: seq<Step>, c: nat) {
    && LockOk(s) && s.lock == LockWord(c, true) && c != 0
    && |steps| > 0 && Run(s, steps) && Exec(s, steps).lock.owner != c
  }

  /** Step i of the run is c's release, and c goes on to switch to the scheduler thread. */
  ghost predicate ServedAt(s: System, steps: seq<Step>, c: nat, i: nat) {
    && i < |steps| && steps[i].c == c && Run(s, steps[..i])
    && var at := Exec(s, steps[..i]);
       && at.lock == LockWord(c, true) && Enabled(at, steps[i])
       && NextStep(at, steps[i]).lock == FREE && NextStep(at, steps[i]).pc[c].ToScheduler?
  }

  /** If a contender's compare-and-swap sets the bit while c owns the lock, c's release, whenever it comes
      and whatever happens in between, goes by way of the scheduler thread. */
  lemma {:induction false} ContenderIsServed(s: System, steps: seq<Step>, c: nat)
    requires ContendedRelease(s, steps, c)
    ensures exists i: nat :: ServedAt(s, steps, c, i)
    decreases |steps|
  {
    var s' := NextStep(s, steps[0]);
    SectionSteps(s, steps[0]);
    LockInv(s, steps[0]);
    if s'.lock.owner == c {
      assert PcOk(s', c) && Exec(s', steps[1..]).lock.owner != c;
      ContenderIsServed(s', steps[1..], c);
      var i: nat :| ServedAt(s', steps[1..], c, i);
      assert steps[..i + 1][1..] == steps[1..][..i];
      assert ServedAt(s, steps, c, i + 1);
    } else {
      assert ServedAt(s, steps, c, 0);
    }
  }

  // ----- who gets to run -----

  /** Thread t appears nowhere: no call asks for it and none has chosen it. */
  ghost predicate Unmentioned(pc: Pc, t: nat) {
    match pc
    case EnterLoad(goal) => goal != ForCall(DoYieldTo(t))
    case EnterTake(goal, _) => goal != ForCall(DoYieldTo(t))
    case EnterMark(goal, _) => goal != ForCall(DoYieldTo(t))
    case Inside(call) => call != DoYieldTo(t)
    case TestOwner(to) => to != Some(t)
    case PickTo(to) => to != Some(t)
    case Scan(to, _) => to != Some(t)
    case First(to, _) => to != Some(t)
    case ExitLoad(next, _) => !(next.SwitchTo? && (next.t == Some(t) || next.asked == Some(t)))
    case ExitCas(next, _, _) => !(next.SwitchTo? && (next.t == Some(t) || next.asked == Some(t)))
    case ToScheduler(next) => !(next.SwitchTo? && next.t == Some(t))
    case Switching(u) => u != Some(t)
    case _ => true
  }

  ghost predicate Ignored(s: System, t: nat) {
    forall c {:trigger s.pc[c]} :: c in s.pc ==> Unmentioned(s.pc[c], t)
  }

  /** The step starts a directed yield to t. */
  ghost predicate Asks(s: System, a: Step, t: nat) {
    a.c in s.pc && s.pc[a.c].Idle? && a.call == DoYieldTo(t)
  }

  /** Somewhere in the run a directed yield asks for t, or t is in a queue. */
  ghost predicate AskedOrQueued(s: System, steps: seq<Step>, sl: Sl, t: nat)
    requires Inv(s, sl) && Run(s, steps)
    decreases |steps|
  {
    Queued(sl, t) ||
    (|steps| > 0 &&
      (Asks(s, steps[0], t) ||
       (StepInv(s, steps[0], sl);
        AskedOrQueued(NextStep(s, steps[0]), steps[1..], Applied(sl, OpIn(s, steps[0])), t))))
  }

  lemma IgnoredStep(s: System, a: Step, sl: Sl, t: nat)
    requires Inv(s, sl) && Enabled(s, a) && Ignored(s, t) && !Asks(s, a, t) && !Queued(sl, t)
    ensures Ignored(NextStep(s, a), t)
  {
    assert PcOk(s, a.c);
    var pc := s.pc[a.c];
    if pc.First? {
      SettledNow(s);
      HeadReads(s.mem, sl, pc.i);
      assert sl.queues[pc.i][0] in sl.queues[pc.i];
    }
    hide Do, Body, BodyAllowed, Word, SlModel.Inv, Represents;
  }

  /** A thread that is in no queue, as one whose priority has never been set, is only switched to if a
      directed yield has asked for it, or if it has been put in a queue after all. */
  lemma {:induction false} OnlyAskedOrQueuedRuns(s: System, steps: seq<Step>, sl: Sl, t: nat, c: nat)
    requires Inv(s, sl) && Run(s, steps) && Ignored(s, t)
    requires var s' := Exec(s, steps); c in s'.pc && s'.pc[c] == Switching(Some(t))
    ensures AskedOrQueued(s, steps, sl, t)
    decreases |steps|
  {
    if |steps| > 0 && !Asks(s, steps[0], t) && !Queued(sl, t) {
      StepInv(s, steps[0], sl);
      IgnoredStep(s, steps[0], sl, t);
      OnlyAskedOrQueuedRuns(NextStep(s, steps[0]), steps[1..], Applied(sl, OpIn(s, steps[0])), t, c);
    }
  }

  /** Somewhere in the run a directed yield asks for t. */
  ghost predicate AskedFor(s: System, steps: seq<Step>, t: nat)
    requires Run(s, steps)
    decreases |steps|
  {
    |steps| > 0 && (Asks(s, steps[0], t) || AskedFor(NextStep(s, steps[0]), steps[1..], t))
  }

  /** In no queue, and not waiting for a wakeup that would put it in one. */
  ghost predicate Aside(sl: Sl, t: nat) {
    !Queued(sl, t) && (t in sl.thd ==> sl.thd[t].state != Blocked)
  }

  /** Only its own calls take such a thread anywhere else. */
  lemma AsideStep(s: System, a: Step, sl: Sl, t: nat)
    requires Inv(s, sl) && Enabled(s, a) && a.c != t && Aside(sl, t)
    ensures |OpIn(s, a)| > 0 ==> Shaped(sl) && Allowed(sl, OpIn(s, a)[0])
    ensures Aside(Applied(sl, OpIn(s, a)), t)
  {
    StepInv(s, a, sl);
    if OpIn(s, a) != [] {
      var op, sl' := OpIn(s, a)[0], Next(sl, OpIn(s, a)[0]);
      hide Represents, SlModel.Inv, PcOk, Settled, BodyAllowed;
      forall i | 0 <= i < |sl'.queues| ensures t !in sl'.queues[i] {
        assert t !in sl.queues[i];
        SlInvariant.ExceptIs(sl.queues[i], op.t);
      }
    }
  }

  /** A thread that has never run has made no call of its own.  As long as thread t does not, it is switched
      to, if it is set aside at first, only after a directed yield has asked for it. */
  lemma {:induction false} OnlyAskedRuns(s: System, steps: seq<Step>, sl: Sl, t: nat, c: nat)
    requires Inv(s, sl) && Run(s, steps) && Ignored(s, t) && Aside(sl, t)
    requires forall i :: 0 <= i < |steps| ==> steps[i].c != t
    requires var s' := Exec(s, steps); c in s'.pc && s'.pc[c] == Switching(Some(t))
    ensures AskedFor(s, steps, t)
    decreases |steps|
  {
    if |steps| > 0 && !Asks(s, steps[0], t) {
      StepInv(s, steps[0], sl);
      IgnoredStep(s, steps[0], sl, t);
      AsideStep(s, steps[0], sl, t);
      OnlyAskedRuns(NextStep(s, steps[0]), steps[1..], Applied(sl, OpIn(s, steps[0])), t, c);
    }
  }

  /** The choice itself: an unqueued RUNNABLE thread is picked if and only if it is asked for, whether or
      not its priority was ever set. */
  lemma UnqueuedPickedIff(sl: Sl, asked: Option<nat>, t: nat)
    requires |sl.queues| == NPRIOS && t in sl.thd && sl.thd[t].state == Runnable && !Queued(sl, t)
    ensures Picked(sl, asked) == Some(t) <==> asked == Some(t)
  {
    SlInvariant.BestFirst(sl.queues, 0);
    if Schedule(sl).Some? {
      var u := Schedule(sl).value;
      var k :| 0 <= k < NPRIOS && |sl.queues[k]| > 0 && u == sl.queues[k][0];
      assert u in sl.queues[k];
    }
  }

  ghost function Alone(a: Step, k: nat): seq<Step> {
    if k == 0 then [] else [a] + Alone(a, k - 1)
  }

  /** k steps of one thread lead from s to s'. */
  ghost predicate Leads(s: System, a: Step, k: nat, s': System) {
    Run(s, Alone(a, k)) && Exec(s, Alone(a, k)) == s'
  }

  lemma LeadsFrom(s: System, a: Step, via: System, k: nat, s': System)
    requires k > 0 && Enabled(s, a) && NextStep(s, a) == via && Leads(via, a, k - 1, s')
    ensures Leads(s, a, k, s')
  {
    assert Alone(a, k)[1..] == Alone(a, k - 1);
  }

  /** From the end of its body on, the call picks the thread asked for and releases the lock. */
  lemma DirectedYieldLeaves(s: System, c: nat, t: nat)
    requires s.lock == LockWord(c, false) && c in s.pc && s.pc[c] == TestOwner(Some(t))
    requires t in s.mem.state && s.mem.state[t] == Runnable
    ensures Leads(s, Step(c, DoYieldTo(t), false), 4, s.(lock := FREE, pc := s.pc[c := Switching(Some(t))]))
  {
    hide Run, Exec, Leads, Do, Body, Begin;
    var a, next := Step(c, DoYieldTo(t), false), SwitchTo(Some(t), Some(t));
    var s1, s2, s3 := Goes(s, c, PickTo(Some(t))), Goes(s, c, ExitLoad(next, 0)), Goes(s, c, ExitCas(next, s.lock, 0));
    var s4 := s.(lock := FREE, pc := s.pc[c := Switching(Some(t))]);
    Nothing(s4, a);
    assert s3.pc[c := Switching(Some(t))] == s4.pc;
    LeadsFrom(s3, a, s4, 1, s4);
    assert s2.pc[c := s3.pc[c]] == s3.pc;
    LeadsFrom(s2, a, s3, 2, s4);
    assert s1.pc[c := s2.pc[c]] == s2.pc;
    LeadsFrom(s1, a, s2, 3, s4);
    LeadsFrom(s, a, s1, 4, s4);
  }

  lemma Nothing(s: System, a: Step)
    ensures Leads(s, a, 0, s)
  {
  }

  /** And it is switched to if it is asked for: with the lock free, a thread c that yields to a RUNNABLE t
      goes on, undisturbed, to switch to t. */
  lemma DirectedYieldRuns(s: System, c: nat, t: nat)
    requires LockOk(s) && s.lock == FREE && c in s.pc && s.pc[c] == Idle
    requires t in s.mem.state && s.mem.state[t] == Runnable
    ensures Leads(s, Step(c, DoYieldTo(t), false), 8, s.(pc := s.pc[c := Switching(Some(t))]))
  {
    hide Run, Exec, Leads, Do, Body, LockOk;
    var a, s8 := Step(c, DoYieldTo(t), false), s.(pc := s.pc[c := Switching(Some(t))]);
    var held := s.(lock := LockWord(c, false));
    var s1, s2 := Goes(s, c, EnterLoad(ForCall(a.call))), Goes(s, c, EnterTake(ForCall(a.call), FREE));
    var s3, s4 := Goes(held, c, Inside(a.call)), Goes(held, c, TestOwner(Some(t)));
    DirectedYieldLeaves(s4, c, t);
    assert s4.(lock := FREE, pc := s4.pc[c := Switching(Some(t))]) == s8;
    assert s3.pc[c := s4.pc[c]] == s4.pc;
    LeadsFrom(s3, a, s4, 5, s8);
    assert s2.pc[c := s3.pc[c]] == s3.pc;
    LeadsFrom(s2, a, s3, 6, s8);
    assert s1.pc[c := s2.pc[c]] == s2.pc;
    LeadsFrom(s1, a, s2, 7, s8);
    LeadsFrom(s, a, s1, 8, s8);
  }

  /** So a thread can run before its parameters are set.  Thread c is created and given a priority, thread t
      is created only, and c yields to t. */
  lemma UnplacedThreadRuns(c: nat, t: nat) returns (m: Mem, sl: Sl)
    requires 0 < c < OWNERS && 0 < t < OWNERS && c != t
    ensures sl == Next(Next(Next(Init(), SlModel.Create(c)), ParamSet(c, 0)), SlModel.Create(t))
    ensures SlModel.Inv(sl) && Represents(m, sl) && Capabilities(sl)
    ensures !sl.thd[t].placed && !Queued(sl, t)
    ensures Leads(Start(m), Step(c, DoYieldTo(t), false), 8,
                  Start(m).(pc := Start(m).pc[c := Switching(Some(t))]))
  {
    var m0 := Mem(map[], map[], map[], map[]);
    var sl1 := Next(Init(), SlModel.Create(c));
    var sl2 := Next(sl1, ParamSet(c, 0));
    sl := Next(sl2, SlModel.Create(t));
    SlInvariant.InitInv();
    SlInvariant.StepInv(Init(), SlModel.Create(c));
    SlInvariant.StepInv(sl1, ParamSet(c, 0));
    SlInvariant.StepInv(sl2, SlModel.Create(t));
    InvApart(Init());
    InvApart(sl1);
    InvApart(sl2);
    EmptyRepresents();
    CreatedIs(m0, Init(), c);
    PlacedIs(Created(m0, c), sl1, c, 0);
    m := Created(Placed(Created(m0, c), c, 0), t);
    CreatedIs(Placed(Created(m0, c), c, 0), sl2, t);
    forall i | 0 <= i < NPRIOS ensures t !in sl.queues[i] { assert QueueOk(sl2, i); }
    hide SlModel.Inv, Represents, Next;
    SameState(m, sl, t);
    SameState(m, sl, c);
    StartInv(m, sl);
    DirectedYieldRuns(Start(m), c, t);
  }

  // ----- contention from a free lock -----

  lemma OwnerEnters(s: System, c: nat, call: Call)
    requires s.lock == FREE && c in s.pc && s.pc[c] == Idle
    ensures Leads(s, Step(c, call, false), 3, s.(lock := LockWord(c, false), pc := s.pc[c := Inside(call)]))
  {
    hide Run, Exec, Leads, Do, Body, Begin;
    var a, s3 := Step(c, call, false), s.(lock := LockWord(c, false), pc := s.pc[c := Inside(call)]);
    var s1, s2 := Goes(s, c, EnterLoad(ForCall(call))), Goes(s, c, EnterTake(ForCall(call), FREE));
    Nothing(s3, a);
    assert s2.pc[c := s3.pc[c]] == s3.pc;
    LeadsFrom(s2, a, s3, 1, s3);
    assert s1.pc[c := s2.pc[c]] == s2.pc;
    LeadsFrom(s1, a, s2, 2, s3);
    LeadsFrom(s, a, s1, 3, s3);
  }

  lemma ContenderMarks(s: System, d: nat, call: Call)
    requires s.lock.owner != 0 && !s.lock.contention && d in s.pc && s.pc[d] == Idle
    ensures Leads(s, Step(d, call, false), 3,
                  s.(lock := LockWord(s.lock.owner, true), pc := s.pc[d := EnterLoad(ForCall(call))]))
  {
    hide Run, Exec, Leads, Do, Body, Begin;
    var a := Step(d, call, false);
    var s3 := s.(lock := LockWord(s.lock.owner, true), pc := s.pc[d := EnterLoad(ForCall(call))]);
    var s1, s2 := Goes(s, d, EnterLoad(ForCall(call))), Goes(s, d, EnterMark(ForCall(call), s.lock));
    Nothing(s3, a);
    assert s2.pc[d := s3.pc[d]] == s3.pc;
    LeadsFrom(s2, a, s3, 1, s3);
    assert s1.pc[d := s2.pc[d]] == s2.pc;
    LeadsFrom(s1, a, s2, 2, s3);
    LeadsFrom(s, a, s1, 3, s3);
  }

  lemma MarkedLeaves(s: System, c: nat, t: nat)
    requires s.lock == LockWord(c, true) && c in s.pc && s.pc[c] == Inside(DoYieldTo(t))
    requires t in s.mem.state && s.mem.state[t] == Runnable
    ensures Leads(s, Step(c, DoYieldTo(t), false), 5,
                  s.(lock := FREE, pc := s.pc[c := ToScheduler(SwitchTo(Some(t), Some(t)))]))
  {
    hide Run, Exec, Leads, Do, Body;
    var a, next := Step(c, DoYieldTo(t), false), SwitchTo(Some(t), Some(t));
    var s1, s2 := Goes(s, c, TestOwner(Some(t))), Goes(s, c, PickTo(Some(t)));
    var s3, s4 := Goes(s, c, ExitLoad(next, 0)), Goes(s, c, ExitCas(next, s.lock, 0));
    var s5 := s.(lock := FREE, pc := s.pc[c := ToScheduler(next)]);
    Nothing(s5, a);
    assert s4.pc[c := s5.pc[c]] == s5.pc;
    LeadsFrom(s4, a, s5, 1, s5);
    assert s3.pc[c := s4.pc[c]] == s4.pc;
    LeadsFrom(s3, a, s4, 2, s5);
    assert s2.pc[c := s3.pc[c]] == s3.pc;
    LeadsFrom(s2, a, s3, 3, s5);
    assert s1.pc[c := s2.pc[c]] == s2.pc;
    LeadsFrom(s1, a, s2, 4, s5);
    LeadsFrom(s, a, s1, 5, s5);
  }

  /** Contention is reached from a free lock, and served: c enters to yield to d, d enters too and sets the
      bit, and c's release goes by way of the scheduler thread. */
  lemma ContentionServed(s: System, c: nat, d: nat)
    requires LockOk(s) && s.lock == FREE && c in s.pc && d in s.pc && c != d && s.pc[c] == s.pc[d] == Idle
    requires d in s.mem.state && s.mem.state[d] == Runnable
    ensures var call := DoYieldTo(d);
            var s1 := s.(lock := LockWord(c, false), pc := s.pc[c := Inside(call)]);
            var s2 := s1.(lock := LockWord(c, true), pc := s1.pc[d := EnterLoad(ForCall(call))]);
            var s3 := s2.(lock := FREE, pc := s2.pc[c := ToScheduler(SwitchTo(Some(d), Some(d)))]);
            && Leads(s, Step(c, call, false), 3, s1)
            && Leads(s1, Step(d, call, false), 3, s2)
            && Leads(s2, Step(c, call, false), 5, s3)
            && ContendedRelease(s2, Alone(Step(c, call, false), 5), c)
  {
    var call := DoYieldTo(d);
    var s1 := s.(lock := LockWord(c, false), pc := s.pc[c := Inside(call)]);
    var s2 := s1.(lock := LockWord(c, true), pc := s1.pc[d := EnterLoad(ForCall(call))]);
    assert PcOk(s, c) && PcOk(s, d);
    OwnerEnters(s, c, call);
    ContenderMarks(s1, d, call);
    MarkedLeaves(s2, c, d);
    hide Run, Exec;
    forall k | k in s2.pc ensures PcOk(s2, k) { assert PcOk(s, k); }
  }
}
