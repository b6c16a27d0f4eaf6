/** The thread scheduler and join protocol of lwt.c as a state machine on values.

    A thread is named by its tid.  The run ring is a sequence that starts at the current thread and
    follows the forward links, so moving `current_thread` along the ring is a rotation, and inserting
    just behind it is appending.  Every step is taken by the current thread and ends where control can
    pass to another thread, which is where `__lwt_dispatch` saves and restores a context; `Pc` is what
    that context remembers.
  */
module LwtModel {
  import opened Options

  /** lwt.h also names a WAITING state; no code assigns or tests it. */
  datatype ThreadState = Runnable | Dead | Blocked

  /** LWT_DEFAULT and LWT_NOJOIN. */
  datatype Flag = Joinable | NoJoin

  /** Where a thread continues when it is dispatched: in its own code, or in the loop of `lwt_join` with
      the join target as its local variable.  A thread that called `lwt_die` never continues. */
  datatype Pc = InUser | InJoin(target: nat) | Exited

  /** `joinedFrom` and `joiningTo` are tids, 0 standing for NULL. */
  datatype Tcb = Tcb(state: ThreadState, flag: Flag, joinedFrom: nat, joiningTo: nat, ret: int, pc: Pc)

  datatype Lwt = Lwt(ring: seq<nat>, tcb: map<nat, Tcb>,
                     runnable: int, blocked: int, zombies: int, tidCounter: nat)

  const INITIAL: nat := 1

  datatype Step =
    | Create(flag: Flag)
    | Yield
    | YieldTo(to: nat)
    | Join(target: nat)
    | Resume
    | Die(value: int)

  // ----- the code's functions -----

  /** The ring holds every live thread exactly once. */
  ghost predicate Shaped(s: Lwt) {
    && |s.ring| > 0
    && (forall t :: t in s.ring <==> t in s.tcb)
    && multiset(s.ring) == multiset(s.tcb.Keys)
    && (forall t :: t in s.tcb ==> 1 <= t <= s.tidCounter)
    && INITIAL in s.tcb
  }

  ghost function Cur(s: Lwt): nat
    requires Shaped(s)
  {
    s.ring[0]
  }

  ghost function Rotate(ring: seq<nat>, k: nat): seq<nat>
    requires k <= |ring|
  {
    ring[k..] + ring[..k]
  }

  /** The do-while scan from ring position k: the first RUNNABLE position, or a whole lap. */
  ghost function Scan(ring: seq<nat>, tcb: map<nat, Tcb>, k: nat): (r: nat)
    requires k <= |ring| && forall t :: t in ring ==> t in tcb
    ensures k <= r <= |ring|
    ensures r < |ring| ==> tcb[ring[r]].state == Runnable
    ensures forall i :: k <= i < r ==> tcb[ring[i]].state != Runnable
    decreases |ring| - k
  {
    if k == |ring| || tcb[ring[k]].state == Runnable then k else Scan(ring, tcb, k + 1)
  }

  ghost function IndexOf(ring: seq<nat>, t: nat): (i: nat)
    requires t in ring
    ensures i < |ring| && ring[i] == t && t !in ring[..i]
  {
    if ring[0] == t then 0 else 1 + IndexOf(ring[1..], t)
  }

  ghost function Without(ring: seq<nat>, t: nat): seq<nat>
    requires t in ring
  {
    var i := IndexOf(ring, t);
    ring[..i] + ring[i + 1..]
  }

  ghost function Set(s: Lwt, t: nat, c: Tcb): Lwt {
    s.(tcb := s.tcb[t := c])
  }

  /** `__lwt_schedule`, which does nothing when the RUNNABLE counter is 0. */
  ghost function Schedule(s: Lwt): Lwt
    requires Shaped(s)
  {
    if s.runnable == 0 then s else s.(ring := Rotate(s.ring, Scan(s.ring, s.tcb, 1)))
  }

  /** The directed branch of `lwt_yield`. */
  ghost function Direct(s: Lwt, t: nat): Lwt
    requires Shaped(s) && t in s.tcb
  {
    if s.tcb[t].state == Runnable then s.(ring := Rotate(s.ring, IndexOf(s.ring, t))) else s
  }

  ghost function CreateStep(s: Lwt, flag: Flag): Lwt {
    var t := s.tidCounter + 1;
    Lwt(s.ring + [t], s.tcb[t := Tcb(Runnable, flag, 0, 0, 0, InUser)],
        s.runnable + 1, s.blocked, s.zombies + 1, t)
  }

  /** Unlink and free a joined thread. */
  ghost function Reap(s: Lwt, t: nat): Lwt
    requires Shaped(s) && t in s.tcb
  {
    s.(ring := Without(s.ring, t), tcb := s.tcb - {t})
  }

  /** The two pointer assignments at the start of a join. */
  ghost function LinkJoin(s: Lwt, t: nat): Lwt
    requires Shaped(s) && t in s.tcb
  {
    var s1 := Set(s, Cur(s), s.tcb[Cur(s)].(joiningTo := t));
    Set(s1, t, s1.tcb[t].(joinedFrom := Cur(s)))
  }

  /** The current thread becomes BLOCKED, at the head of the join loop. */
  ghost function BlockCur(s: Lwt, t: nat): Lwt
    requires Shaped(s) && t in s.tcb
  {
    Set(s, Cur(s), s.tcb[Cur(s)].(state := Blocked, pc := InJoin(t)))
  }

  /** One test of the join loop's guard: either another iteration up to its yield, or the code after
      the loop. */
  ghost function JoinLoop(s: Lwt): Lwt
    requires Shaped(s) && s.tcb[Cur(s)].pc.InJoin? && s.tcb[Cur(s)].pc.target in s.tcb
  {
    var c := s.tcb[Cur(s)];
    if c.state == Blocked then
      Direct(s.(runnable := s.runnable - 1, blocked := s.blocked + 1), c.pc.target)
    else
      Reap(Set(s, Cur(s), c.(pc := InUser)).(blocked := s.blocked - 1, zombies := s.zombies - 1), c.pc.target)
  }

  ghost function JoinStep(s: Lwt, t: nat): Lwt
    requires Shaped(s) && t in s.tcb
  {
    if s.tcb[t].flag == NoJoin then s
    else
      var s1 := LinkJoin(s, t);
      if s1.tcb[t].state == Dead then
        Reap(s1.(zombies := s.zombies - 1, runnable := s.runnable - 1), t)
      else
        JoinLoop(BlockCur(s1, t))
  }

  /** `lwt_die` of a joinable thread up to its yield: DEAD, its joiner RUNNABLE, the value stored. */
  ghost function Mark(s: Lwt, v: int): Lwt
    requires Shaped(s)
  {
    var me := s.tcb[Cur(s)].(state := Dead, ret := v, pc := Exited);
    var s1 := Set(s, Cur(s), me);
    if me.joinedFrom in s1.tcb then
      Set(s1, me.joinedFrom, s1.tcb[me.joinedFrom].(state := Runnable))
    else s1
  }

  /** `lwt_die` of a LWT_NOJOIN thread: scan first, then unlink. */
  ghost function Leave(s: Lwt): Lwt
    requires Shaped(s)
  {
    var k := Scan(s.ring, s.tcb, 1);
    s.(ring := Without(Rotate(s.ring, k), Cur(s)), tcb := s.tcb - {Cur(s)})
  }

  ghost function DieStep(s: Lwt, v: int): Lwt
    requires Shaped(s)
  {
    if s.tcb[Cur(s)].flag == NoJoin then Leave(s) else Schedule(Mark(s, v))
  }

  /** What the library demands of its callers.  The initial thread never dies.  A joinable thread is
      joined by another thread, at most once, and not while it is itself BLOCKED in a join. */
  ghost predicate Allowed(s: Lwt, a: Step)
    requires Shaped(s)
  {
    && (a.Resume? <==> s.tcb[Cur(s)].pc.InJoin?)
    && match a
       case Create(_) => true
       case Yield => true
       case YieldTo(t) => t in s.tcb
       case Join(t) =>
         && t in s.tcb
         && (s.tcb[t].flag == Joinable ==>
               t != Cur(s) && s.tcb[t].joinedFrom == 0 && s.tcb[t].state != Blocked)
       case Resume => s.tcb[Cur(s)].pc.target in s.tcb
       case Die(_) => Cur(s) != INITIAL
  }

  ghost function Next(s: Lwt, a: Step): Lwt
    requires Shaped(s) && Allowed(s, a)
  {
    match a
    case Create(flag) => CreateStep(s, flag)
    case Yield => Schedule(s)
    case YieldTo(t) => Direct(s, t)
    case Join(t) => JoinStep(s, t)
    case Resume => JoinLoop(s)
    case Die(v) => DieStep(s, v)
  }

  /** The thread that `lwt_join` reaps in this step, with the value it returns. */
  ghost function Reaped(s: Lwt, a: Step): Option<(nat, int)>
    requires Shaped(s) && Allowed(s, a)
  {
    if a.Join? && s.tcb[a.target].flag == Joinable && s.tcb[a.target].state == Dead then
      Some((a.target, s.tcb[a.target].ret))
    else if a.Resume? && s.tcb[Cur(s)].state != Blocked then
      var t := s.tcb[Cur(s)].pc.target;
      Some((t, s.tcb[t].ret))
    else None
  }

  /** The state `lwt_init` leaves.  It does not set the flag, which is therefore a parameter. */
  ghost function Init(flag: Flag): Lwt {
    Lwt([INITIAL], map[INITIAL := Tcb(Runnable, flag, 0, 0, 0, InUser)], 1, 0, 0, 2)
  }

  // ----- the invariant -----

  ghost predicate Below(s: Lwt, rank: map<nat, nat>, t: nat)
    requires t in s.tcb && s.tcb.Keys <= rank.Keys
  {
    var u := s.tcb[t].joiningTo;
    s.tcb[t].state == Blocked && u in s.tcb ==> rank[u] < rank[t]
  }

  /** A ranking of the threads that decreases along every blocked thread's `joiningTo`. */
  ghost predicate Ranked(s: Lwt, rank: map<nat, nat>) {
    && s.tcb.Keys <= rank.Keys
    && (forall t {:trigger Below(s, rank, t)} :: t in s.tcb ==> Below(s, rank, t))
  }

  /** The join links of one thread: who joins whom is recorded on both sides, and a joiner is BLOCKED
      exactly as long as its target is not DEAD. */
  ghost predicate Linked(s: Lwt, u: nat)
    requires u in s.tcb
  {
    var c := s.tcb[u];
    && (c.state == Blocked ==> c.pc.InJoin?)
    && (c.state == Dead <==> c.pc == Exited)
    && (c.state == Dead ==> c.flag == Joinable && u != INITIAL)
    && (c.pc.InJoin? ==>
          && c.pc.target in s.tcb && c.pc.target != u && c.joiningTo == c.pc.target
          && s.tcb[c.pc.target].joinedFrom == u && s.tcb[c.pc.target].flag == Joinable
          && (c.state == Blocked <==> s.tcb[c.pc.target].state != Dead))
    && (c.joinedFrom != 0 ==> c.joinedFrom in s.tcb && s.tcb[c.joinedFrom].pc == InJoin(u))
  }

  ghost predicate Core(s: Lwt) {
    && Shaped(s)
    && (forall u {:trigger Linked(s, u)} :: u in s.tcb ==> Linked(s, u))
    && (exists rank :: Ranked(s, rank))
  }

  ghost function Joiners(s: Lwt): set<nat> {
    set u | u in s.tcb && s.tcb[u].pc.InJoin?
  }

  /** The exact meaning of the three counters; `gone` counts the LWT_NOJOIN threads that have left. */
  ghost predicate Counted(s: Lwt, gone: nat) {
    && s.blocked == |Joiners(s)|
    && s.zombies == |s.ring| - 1 + gone
    && s.runnable == |s.ring| - |Joiners(s)| + gone
  }

  ghost predicate Inv(s: Lwt, gone: nat) {
    && Core(s)
    && s.tcb[Cur(s)].state == Runnable
    && Counted(s, gone)
  }
}
