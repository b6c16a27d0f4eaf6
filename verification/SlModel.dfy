/** Blocking, waking and the fixed-priority round-robin policy (sl.c, sl_mod_fprr.c) as operations on
    values.  Each operation is the body of one critical section.
  */
module SlModel {
  import opened Options

  const NPRIOS := 32
  const LOWEST := 31

  /** The three states that the block and wakeup protocol moves between. */
  datatype SlState = Blocked | Woken | Runnable

  /** `placed` says that the thread's priority has been set; `blocks` and `wakeups` count the completed
      calls of `sl_thd_block` and `sl_thd_wakeup` on it. */
  datatype Thd = Thd(state: SlState, prio: nat, placed: bool, blocks: nat, wakeups: nat)

  /** The ready queues by priority, oldest thread first. */
  datatype Sl = Sl(queues: seq<seq<nat>>, thd: map<nat, Thd>)

  datatype Op =
    | Create(t: nat)
    | ParamSet(t: nat, prio: nat)
    | Block(t: nat)
    | Wakeup(t: nat)
    | Yield(t: nat)

  // ----- queues -----

  ghost function Except(q: seq<nat>, t: nat): seq<nat> {
    if |q| == 0 then [] else (if q[0] == t then [] else [q[0]]) + Except(q[1..], t)
  }

  /** `ps_list_rem_d`: the thread leaves the queue it is in, if any. */
  ghost function Dequeue(qs: seq<seq<nat>>, t: nat): seq<seq<nat>> {
    seq(|qs|, i requires 0 <= i < |qs| => Except(qs[i], t))
  }

  /** `ps_list_head_append_d`. */
  ghost function Enqueue(qs: seq<seq<nat>>, i: nat, t: nat): seq<seq<nat>>
    requires i < |qs|
  {
    qs[i := qs[i] + [t]]
  }

  ghost predicate Queued(s: Sl, t: nat) {
    exists i :: 0 <= i < |s.queues| && t in s.queues[i]
  }

  /** `sl_mod_schedule` from priority i on; with every queue empty the code's assertion fails. */
  ghost function FirstFrom(qs: seq<seq<nat>>, i: nat): Option<nat>
    requires i <= |qs|
    decreases |qs| - i
  {
    if i == |qs| then None else if |qs[i]| > 0 then Some(qs[i][0]) else FirstFrom(qs, i + 1)
  }

  ghost function Schedule(s: Sl): Option<nat> {
    FirstFrom(s.queues, 0)
  }

  // ----- operations -----

  ghost predicate Shaped(s: Sl) {
    && |s.queues| == NPRIOS
    && (forall t :: t in s.thd ==> s.thd[t].prio < NPRIOS)
  }

  /** What the assertions of sl.c and sl_mod_fprr.c and their callers' contract demand: a thread that
      blocks or yields is the running one and so not BLOCKED, a WOKEN thread is not woken again (waking an
      unknown one does nothing), and the parameters of a BLOCKED thread are left alone. */
  ghost predicate Allowed(s: Sl, a: Op) {
    match a
    case Create(t) => t !in s.thd
    case ParamSet(t, prio) => t in s.thd && prio < NPRIOS && s.thd[t].state != Blocked
    case Block(t) => t in s.thd && s.thd[t].state != Blocked
    case Wakeup(t) => t in s.thd ==> s.thd[t].state != Woken
    case Yield(t) => t in s.thd && s.thd[t].state != Blocked
  }

  ghost function Next(s: Sl, a: Op): Sl
    requires Shaped(s) && (a.Create? || a.Wakeup? || a.t in s.thd) && (a.ParamSet? ==> a.prio < NPRIOS)
  {
    match a
    case Create(t) => s.(thd := s.thd[t := Thd(Runnable, LOWEST, false, 0, 0)])
    case ParamSet(t, prio) =>
      Sl(Enqueue(Dequeue(s.queues, t), prio, t), s.thd[t := s.thd[t].(prio := prio, placed := true)])
    case Block(t) =>
      var c := s.thd[t].(blocks := s.thd[t].blocks + 1);
      if c.state == Woken then s.(thd := s.thd[t := c.(state := Runnable)])
      else Sl(Dequeue(s.queues, t), s.thd[t := c.(state := Blocked)])
    case Wakeup(t) =>
      if t !in s.thd then s
      else
        var c := s.thd[t].(wakeups := s.thd[t].wakeups + 1);
        if c.state == Runnable then s.(thd := s.thd[t := c.(state := Woken)])
        else Sl(Enqueue(s.queues, c.prio, t), s.thd[t := c.(state := Runnable)])
    case Yield(t) => s.(queues := Enqueue(Dequeue(s.queues, t), s.thd[t].prio, t))
  }

  ghost function Init(): Sl {
    Sl(seq(NPRIOS, _ => []), map[])
  }

  // ----- the invariant -----

  ghost predicate Distinct(q: seq<nat>) {
    |q| > 0 ==> q[0] !in q[1..] && Distinct(q[1..])
  }

  /** A queue holds existing threads of its priority, none twice, none BLOCKED. */
  ghost predicate QueueOk(s: Sl, i: nat)
    requires i < |s.queues|
  {
    && Distinct(s.queues[i])
    && (forall t :: t in s.queues[i] ==> t in s.thd && s.thd[t].prio == i && s.thd[t].state != Blocked)
  }

  /** Wakeups and blocks balance up to the one that the state stands for, and a thread whose priority has
      been set is in its queue exactly when it is not BLOCKED. */
  ghost predicate ThdOk(s: Sl, t: nat)
    requires t in s.thd && Shaped(s)
  {
    var c := s.thd[t];
    && c.wakeups - c.blocks == (match c.state case Blocked => -1 case Runnable => 0 case Woken => 1)
    && (c.placed ==> (t in s.queues[c.prio] <==> c.state != Blocked))
  }

  ghost predicate Inv(s: Sl) {
    && Shaped(s)
    && (forall i {:trigger QueueOk(s, i)} :: 0 <= i < NPRIOS ==> QueueOk(s, i))
    && (forall t {:trigger ThdOk(s, t)} :: t in s.thd ==> ThdOk(s, t))
  }
}
