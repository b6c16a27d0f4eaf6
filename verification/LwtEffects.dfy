/** What each call of lwt.c does to the threads and the ring, and what that means over whole runs: flags,
    and joins that wait. */
module LwtEffects {
  import opened Options
  import opened LwtModel
  import opened LwtInvariant
  import opened LwtRuns

  // ----- single calls -----

  /** The ring is read from its k-th thread on, which is the first RUNNABLE one after the current. */
  ghost predicate OnTo(ring: seq<nat>, tcb: map<nat, Tcb>, k: nat, ring': seq<nat>) {
    && 1 <= k <= |ring| && ring' == ring[k..] + ring[..k]
    && (forall t :: t in ring ==> t in tcb)
    && tcb[ring'[0]].state == Runnable && forall i :: 1 <= i < k ==> tcb[ring[i]].state != Runnable
  }

  ghost predicate TakenOut(ring: seq<nat>, t: nat, i: nat, ring': seq<nat>) {
    i < |ring| && ring[i] == t && ring' == ring[..i] + ring[i + 1..]
  }

  /** `lwt_create` adds one thread, with the flag asked for, behind all others. */
  lemma Creates(s: Lwt, flag: Flag)
    requires Shaped(s)
    ensures Allowed(s, Create(flag)) <==> !s.tcb[Cur(s)].pc.InJoin?
    ensures Allowed(s, Create(flag)) ==>
              var s', t := Next(s, Create(flag)), s.tidCounter + 1;
              && t !in s.tcb && s'.tidCounter == t && s'.ring == s.ring + [t]
              && s'.tcb == s.tcb[t := Tcb(Runnable, flag, 0, 0, 0, InUser)]
  {
  }

  lemma Facts(s: Lwt, gone: nat)
    requires Inv(s, gone)
    ensures Core(s) && Shaped(s) && Counted(s, gone) && s.tcb[Cur(s)].state == Runnable
  {
  }

  lemma Scheduled(s: Lwt, gone: nat)
    requires Core(s) && Counted(s, gone) && !s.tcb[Cur(s)].pc.InJoin?
    ensures var s' := Schedule(s); s' == s.(ring := s'.ring) && exists k: nat :: OnTo(s.ring, s.tcb, k, s'.ring)
  {
    ScheduleInv(s, gone);
    hide Counted, Linked;
    var k := Scan(s.ring, s.tcb, 1);
    assert OnTo(s.ring, s.tcb, k, Schedule(s).ring);
  }

  /** `lwt_yield(LWT_NULL)` moves on to the next RUNNABLE thread. */
  lemma YieldsOn(s: Lwt, gone: nat)
    requires Inv(s, gone) && Allowed(s, Yield)
    ensures Next(s, Yield) == s.(ring := Next(s, Yield).ring)
    ensures exists k: nat :: OnTo(s.ring, s.tcb, k, Next(s, Yield).ring)
  {
    Scheduled(s, gone);
  }

  /** `lwt_yield(t)` moves on to t if t is RUNNABLE, and does nothing otherwise. */
  lemma YieldsTo(s: Lwt, t: nat)
    requires Shaped(s) && Allowed(s, YieldTo(t))
    ensures var s' := Next(s, YieldTo(t));
            && (s.tcb[t].state != Runnable ==> s' == s)
            && (s.tcb[t].state == Runnable ==>
                  && s' == s.(ring := s'.ring) && |s'.ring| > 0 && s'.ring[0] == t
                  && exists i: nat :: i < |s.ring| && s'.ring == s.ring[i..] + s.ring[..i])
  {
    InRing(s, t);
    RotateShape(s.ring, IndexOf(s.ring, t));
  }

  /** `lwt_join` of a LWT_NOJOIN thread returns at once and changes nothing. */
  lemma JoinsNothing(s: Lwt, t: nat, gone: nat)
    requires Inv(s, gone) && Allowed(s, Join(t)) && s.tcb[t].flag == NoJoin
    ensures Next(s, Join(t)) == s && Reaped(s, Join(t)) == None
  {
    JoinCases(s, t, gone);
  }

  /** Of a DEAD thread, it removes that thread and nothing else. */
  lemma JoinsDead(s: Lwt, t: nat, gone: nat)
    requires Inv(s, gone) && Allowed(s, Join(t)) && s.tcb[t].flag == Joinable && s.tcb[t].state == Dead
    ensures var s', c := Next(s, Join(t)), Cur(s);
            && s'.tcb == s.tcb[c := s.tcb[c].(joiningTo := t)] - {t}
            && exists i: nat :: i > 0 && TakenOut(s.ring, t, i, s'.ring)
  {
    JoinDeadShape(s, t);
    LinkedTcb(s, t);
    var i := IndexOf(s.ring, t);
    assert TakenOut(s.ring, t, i, Next(s, Join(t)).ring);
  }

  lemma LinkedTcb(s: Lwt, t: nat)
    requires Shaped(s) && t in s.tcb && t != Cur(s)
    ensures var c := Cur(s);
            && LinkJoin(s, t).tcb == s.tcb[c := s.tcb[c].(joiningTo := t)][t := s.tcb[t].(joinedFrom := c)]
            && LinkJoin(s, t).tcb - {t} == s.tcb[c := s.tcb[c].(joiningTo := t)] - {t}
  {
  }

  /** Of a live thread, it leaves the caller BLOCKED in the join and the target running. */
  lemma JoinWaits(s: Lwt, t: nat, gone: nat)
    requires Inv(s, gone) && Allowed(s, Join(t)) && s.tcb[t].flag == Joinable && s.tcb[t].state != Dead
    ensures var s', c := Next(s, Join(t)), Cur(s);
            && t != c && |s'.ring| > 0 && s'.ring[0] == t
            && s'.tcb == s.tcb[c := s.tcb[c].(joiningTo := t, state := Blocked, pc := InJoin(t))]
                              [t := s.tcb[t].(joinedFrom := c)]
  {
    Facts(s, gone);
    hide Inv, Core, Counted, Linked, Shaped, JoinStep;
    JoinedTcb(s, t);
    BlockedRing(s, t, gone);
  }

  lemma JoinedTcb(s: Lwt, t: nat)
    requires Shaped(s) && t in s.tcb && s.tcb[t].flag == Joinable && s.tcb[t].state == Runnable && t != Cur(s)
    ensures var c := Cur(s);
            JoinStep(s, t).tcb == s.tcb[c := s.tcb[c].(joiningTo := t, state := Blocked, pc := InJoin(t))]
                                       [t := s.tcb[t].(joinedFrom := c)]
  {
    JoinBlockShape(s, t);
    LinkedTcb(s, t);
    LinkShape(s, t);
    hide LinkJoin, Shaped;
  }

  lemma BlockedRing(s: Lwt, t: nat, gone: nat)
    requires Inv(s, gone) && Allowed(s, Join(t)) && s.tcb[t].flag == Joinable && s.tcb[t].state == Runnable
    ensures var s' := JoinStep(s, t); |s'.ring| > 0 && s'.ring[0] == t
  {
    JoinBlockInv(s, t, gone);
    Facts(JoinStep(s, t), gone);
    hide Core, Counted, Linked, JoinStep;
  }

  /** A join that continues removes its target, and its caller is back in its own code. */
  lemma ReturnsFromJoin(s: Lwt, gone: nat)
    requires Inv(s, gone) && Allowed(s, Resume)
    ensures var s', c := Next(s, Resume), Cur(s);
            && s.tcb[c].pc.InJoin? && s.tcb[c].pc.target in s.tcb && s.tcb[s.tcb[c].pc.target].state == Dead
            && s'.tcb == s.tcb[c := s.tcb[c].(pc := InUser)] - {s.tcb[c].pc.target}
            && exists i: nat :: i > 0 && TakenOut(s.ring, s.tcb[c].pc.target, i, s'.ring)
  {
    var c := Cur(s);
    ResumeReturns(s, gone);
    ResumeFacts(s, gone);
    var t := s.tcb[c].pc.target;
    assert TakenOut(s.ring, t, IndexOf(s.ring, t), Next(s, Resume).ring);
  }

  /** `lwt_die` of a LWT_NOJOIN thread leaves nothing of it, and the next RUNNABLE thread goes on. */
  lemma Vanishes(s: Lwt, v: int, gone: nat)
    requires Inv(s, gone) && Allowed(s, Die(v)) && s.tcb[Cur(s)].flag == NoJoin
    ensures var s', c := Next(s, Die(v)), Cur(s);
            && s'.tcb == s.tcb - {c}
            && exists k: nat :: 1 <= k < |s.ring| && OnTo(s.ring, s.tcb, k, s.ring[k..] + s.ring[..k])
                                && s'.ring == s.ring[k..] + s.ring[1..k]
  {
    var c, s' := Cur(s), Next(s, Die(v));
    var k := Scan(s.ring, s.tcb, 1);
    NoJoinPicksAnother(s);
    var r := s.ring[k..] + s.ring[..k];
    WithoutHead(s.ring, k);
    assert s'.ring == s.ring[k..] + s.ring[1..k];
    assert OnTo(s.ring, s.tcb, k, r);
  }

  lemma WithoutHead(ring: seq<nat>, k: nat)
    requires 1 <= k < |ring| && multiset(ring)[ring[0]] == 1
    ensures var r := Rotate(ring, k); ring[0] in r && Without(r, ring[0]) == ring[k..] + ring[1..k]
  {
    var r := ring[k..] + ring[..k];
    assert r[|ring| - k] == ring[0];
    RotateShape(ring, k);
    IndexIs(r, |ring| - k);
    assert r[..|ring| - k] == ring[k..] && r[|ring| - k + 1..] == ring[1..k];
  }

  /** `lwt_die` of a joinable thread leaves it DEAD with its value and its joiner RUNNABLE, and the next
      RUNNABLE thread goes on. */
  lemma Dies(s: Lwt, v: int, gone: nat)
    requires Inv(s, gone) && Allowed(s, Die(v)) && s.tcb[Cur(s)].flag == Joinable
    ensures var s', c, j := Next(s, Die(v)), Cur(s), s.tcb[Cur(s)].joinedFrom;
            && (j != 0 ==> j in s.tcb && s.tcb[j].pc == InJoin(c))
            && (var dead := s.tcb[c := s.tcb[c].(state := Dead, ret := v, pc := Exited)];
                s'.tcb == if j == 0 then dead else dead[j := s.tcb[j].(state := Runnable)])
            && exists k: nat :: OnTo(s.ring, s'.tcb, k, s'.ring)
  {
    var m := Mark(s, v);
    DieFacts(s, v, gone);
    DiesTcb(s, v);
    Scheduled(m, gone);
    hide Core, Counted, Mark, Linked, Shaped, Schedule;
  }

  lemma DiesTcb(s: Lwt, v: int)
    requires Shaped(s) && Linked(s, Cur(s))
    ensures var c, j := Cur(s), s.tcb[Cur(s)].joinedFrom;
            && (j != 0 ==> j in s.tcb && s.tcb[j].pc == InJoin(c))
            && var dead := s.tcb[c := s.tcb[c].(state := Dead, ret := v, pc := Exited)];
               Mark(s, v) == s.(tcb := if j == 0 then dead else dead[j := s.tcb[j].(state := Runnable)])
  {
    MarkIs(s, v);
  }

  // ----- flags -----

  /** The flag with which the run creates thread t. */
  ghost function MadeWith(s: Lwt, steps: seq<Step>, t: nat): Option<Flag>
    requires Run(s, steps)
    decreases |steps|
  {
    if |steps| == 0 then None
    else if steps[0].Create? && t == s.tidCounter + 1 then Some(steps[0].flag)
    else MadeWith(Next(s, steps[0]), steps[1..], t)
  }

  /** No call changes a thread's flag. */
  lemma FlagStays(s: Lwt, a: Step, t: nat, gone: nat)
    requires Inv(s, gone) && Allowed(s, a) && t in Next(s, a).tcb && !(a.Create? && t == s.tidCounter + 1)
    ensures t in s.tcb && Next(s, a).tcb[t].flag == s.tcb[t].flag
  {
    Facts(s, gone);
    hide Inv, Core, Next, Shaped, Counted;
    match a
    case Create(flag) => Creates(s, flag);
    case Yield => YieldsOn(s, gone);
    case YieldTo(u) => YieldsTo(s, u);
    case Join(u) =>
      if s.tcb[u].flag == NoJoin {
        JoinsNothing(s, u, gone);
      } else if s.tcb[u].state == Dead {
        JoinsDead(s, u, gone);
      } else {
        JoinWaits(s, u, gone);
      }
    case Resume => ReturnsFromJoin(s, gone);
    case Die(v) => if Leaves(s, a) { Vanishes(s, v, gone); } else { Dies(s, v, gone); }
  }

  lemma CountUp(s: Lwt, a: Step, gone: nat)
    requires Inv(s, gone) && Allowed(s, a)
    ensures Next(s, a).tidCounter == if a.Create? then s.tidCounter + 1 else s.tidCounter
  {
    if a.Join? { JoinCases(s, a.target, gone); }
  }

  /** Over any run a thread that is not new has the flag it had, and a new one the flag it was created
      with. */
  lemma {:induction false} FlagsKept(s: Lwt, steps: seq<Step>, t: nat, gone: nat)
    requires Inv(s, gone) && Run(s, steps) && t in Exec(s, steps).tcb
    ensures t in s.tcb ==> MadeWith(s, steps, t) == None && Exec(s, steps).tcb[t].flag == s.tcb[t].flag
    ensures t !in s.tcb ==> MadeWith(s, steps, t) == Some(Exec(s, steps).tcb[t].flag)
    ensures t !in s.tcb ==> t > s.tidCounter
    decreases |steps|
  {
    if |steps| > 0 {
      var a, s' := steps[0], Next(s, steps[0]);
      StepInv(s, a, gone);
      CountUp(s, a, gone);
      hide Inv, Next, Allowed;
      FlagsKept(s', steps[1..], t, if Leaves(s, a) then gone + 1 else gone);
      StepFlags(s, a, t, gone);
    }
  }

  /** What a step means for thread t's flag, whether or not the thread is there. */
  lemma StepFlags(s: Lwt, a: Step, t: nat, gone: nat)
    requires Inv(s, gone) && Allowed(s, a)
    ensures t in Next(s, a).tcb ==>
              if a.Create? && t == s.tidCounter + 1 then t !in s.tcb && Next(s, a).tcb[t].flag == a.flag
              else t in s.tcb && Next(s, a).tcb[t].flag == s.tcb[t].flag
    ensures a.Create? ==> s.tidCounter + 1 in Next(s, a).tcb
    ensures Shaped(s) && forall u :: u in s.tcb ==> u <= s.tidCounter
    ensures t in s.tcb && t !in Next(s, a).tcb ==> t <= Next(s, a).tidCounter
  {
    CountUp(s, a, gone);
    if t in Next(s, a).tcb && !(a.Create? && t == s.tidCounter + 1) { FlagStays(s, a, t, gone); }
  }

  /** A thread that a run from the start created LWT_NOJOIN: it is never DEAD, a join of it returns at once
      and changes nothing, and when it dies nothing of it is left. */
  lemma NoJoinFromStart(flag: Flag, steps: seq<Step>, t: nat, v: int)
    requires Run(Init(flag), steps) && MadeWith(Init(flag), steps, t) == Some(NoJoin)
    ensures var s := Exec(Init(flag), steps);
            && Shaped(s) && (t in s.tcb ==> s.tcb[t].flag == NoJoin && s.tcb[t].state != Dead)
            && (Allowed(s, Join(t)) ==> Next(s, Join(t)) == s)
            && (Allowed(s, Die(v)) && Cur(s) == t ==> t !in Next(s, Die(v)).tcb)
  {
    InitInv(flag);
    var s, gone := Exec(Init(flag), steps), Leavers(Init(flag), steps);
    RunInv(Init(flag), steps, 0);
    MadeLater(Init(flag), steps, t, 0);
    if t in s.tcb {
      FlagsKept(Init(flag), steps, t, 0);
      assert Linked(s, t);
      if Allowed(s, Join(t)) { JoinsNothing(s, t, gone); }
      if Allowed(s, Die(v)) && Cur(s) == t { Vanishes(s, v, gone); }
    }
  }

  /** And one that a run created joinable is DEAD after its death, until it is joined. */
  lemma JoinableFromStart(flag: Flag, steps: seq<Step>, t: nat, v: int)
    requires Run(Init(flag), steps) && MadeWith(Init(flag), steps, t) == Some(Joinable)
    requires var s := Exec(Init(flag), steps); Shaped(s) && Cur(s) == t && Allowed(s, Die(v))
    ensures var s' := Next(Exec(Init(flag), steps), Die(v)); t in s'.tcb && s'.tcb[t].state == Dead && s'.tcb[t].ret == v
  {
    InitInv(flag);
    var s, gone := Exec(Init(flag), steps), Leavers(Init(flag), steps);
    RunInv(Init(flag), steps, 0);
    MadeLater(Init(flag), steps, t, 0);
    FlagsKept(Init(flag), steps, t, 0);
    Dies(s, v, gone);
    assert Linked(s, t);
  }

  lemma {:induction false} MadeLater(s: Lwt, steps: seq<Step>, t: nat, gone: nat)
    requires Inv(s, gone) && Run(s, steps) && MadeWith(s, steps, t).Some?
    ensures t > s.tidCounter
    decreases |steps|
  {
    if !(steps[0].Create? && t == s.tidCounter + 1) {
      StepInv(s, steps[0], gone);
      CountUp(s, steps[0], gone);
      MadeLater(Next(s, steps[0]), steps[1..], t, if Leaves(s, steps[0]) then gone + 1 else gone);
    }
  }

  // ----- joins that wait -----

  /** Thread c is BLOCKED in a join of t. */
  ghost predicate WaitsFor(s: Lwt, c: nat, t: nat) {
    c in s.tcb && s.tcb[c].state == Blocked && s.tcb[c].pc == InJoin(t)
  }

  ghost predicate DiesIn(s: Lwt, steps: seq<Step>, t: nat)
    requires Run(s, steps)
    decreases |steps|
  {
    |steps| > 0 && ((steps[0].Die? && Cur(s) == t) || DiesIn(Next(s, steps[0]), steps[1..], t))
  }

  lemma WaiterLinks(s: Lwt, c: nat, t: nat, gone: nat)
    requires Inv(s, gone) && WaitsFor(s, c, t)
    ensures Shaped(s) && Cur(s) != c && s.tcb[Cur(s)].state == Runnable
    ensures t in s.tcb && t != c && s.tcb[t].joinedFrom == c && s.tcb[t].flag == Joinable && s.tcb[t].state != Dead
  {
    assert Linked(s, c) && Linked(s, t);
  }

  lemma WaitsOn(s: Lwt, a: Step, c: nat, t: nat, gone: nat)
    requires Inv(s, gone) && Allowed(s, a) && WaitsFor(s, c, t)
    ensures if a.Die? && Cur(s) == t then c in Next(s, a).tcb && Next(s, a).tcb[c] == s.tcb[c].(state := Runnable)
            else WaitsFor(Next(s, a), c, t)
  {
    hide Inv, Next, Shaped;
    WaiterLinks(s, c, t, gone);
    match a
    case Create(flag) => Creates(s, flag);
    case Yield => YieldsOn(s, gone);
    case YieldTo(u) => YieldsTo(s, u);
    case Join(u) =>
      if s.tcb[u].flag == NoJoin {
        JoinsNothing(s, u, gone);
      } else if s.tcb[u].state == Dead {
        JoinsDead(s, u, gone);
      } else {
        JoinWaits(s, u, gone);
      }
    case Resume => ReturnsFromJoin(s, gone);
    case Die(v) => if Leaves(s, a) { Vanishes(s, v, gone); } else { Dies(s, v, gone); }
  }

  /** Over any run a thread that has joined a live thread waits until that thread dies, and is not
      dispatched before. */
  lemma {:induction false} JoinerWaits(s: Lwt, steps: seq<Step>, c: nat, t: nat, gone: nat)
    requires Inv(s, gone) && Run(s, steps) && WaitsFor(s, c, t) && !DiesIn(s, steps, t)
    ensures WaitsFor(Exec(s, steps), c, t) && PassedOver(s, steps, c)
    decreases |steps|
  {
    assert Cur(s) != c;
    if |steps| > 0 {
      WaitsOn(s, steps[0], c, t, gone);
      StepInv(s, steps[0], gone);
      hide Inv, Next, Allowed, Shaped;
      JoinerWaits(Next(s, steps[0]), steps[1..], c, t, if Leaves(s, steps[0]) then gone + 1 else gone);
    }
  }

  /** So a join that returns a value does so when its target has died and not before: from the call on, as
      long as the target has not died, the caller is never dispatched. */
  lemma JoinReturnsAfterDeath(s: Lwt, t: nat, steps: seq<Step>, gone: nat)
    requires Inv(s, gone) && Allowed(s, Join(t)) && s.tcb[t].flag == Joinable && s.tcb[t].state != Dead
    requires Run(Next(s, Join(t)), steps) && !DiesIn(Next(s, Join(t)), steps, t)
    ensures PassedOver(Next(s, Join(t)), steps, Cur(s))
  {
    JoinWaits(s, t, gone);
    StepInv(s, Join(t), gone);
    JoinerWaits(Next(s, Join(t)), steps, Cur(s), t, gone);
  }
}
