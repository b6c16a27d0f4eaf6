/** A channel with any number of cooperating senders and receivers (channel.c), on values.

    The code between two yields is one step.  A call that finds the channel full, or empty, yields and
    tests again when its thread is dispatched; in between any other threads may take any steps.
  */
module ChannelModel {

  datatype Msg = Msg(sender: nat, data: nat)

  /** `sent` and `received` list everything that was ever sent and received. */
  datatype Chan = Chan(capacity: nat, buffered: seq<Msg>, sent: seq<Msg>, received: seq<Msg>)

  datatype Op = Snd(m: Msg) | Rcv

  /** Whether the call gets past its loop. */
  ghost predicate Ready(s: Chan, op: Op) {
    if op.Snd? then |s.buffered| != s.capacity else s.buffered != []
  }

  /** One pass of `lwt_snd` or `lwt_rcv`: to the end, or to the yield in its loop. */
  ghost function Next(s: Chan, op: Op): Chan {
    if !Ready(s, op) then s
    else match op
      case Snd(m) => s.(buffered := s.buffered + [m], sent := s.sent + [m])
      case Rcv => s.(buffered := s.buffered[1..], received := s.received + [s.buffered[0]])
  }

  ghost predicate Inv(s: Chan) {
    1 <= s.capacity && |s.buffered| <= s.capacity && s.sent == s.received + s.buffered
  }

  lemma NextInv(s: Chan, op: Op)
    requires Inv(s)
    ensures Inv(Next(s, op))
  {
    if op.Snd? {
      assert s.sent + [op.m] == s.received + (s.buffered + [op.m]);
    } else if Ready(s, op) {
      assert s.buffered == [s.buffered[0]] + s.buffered[1..];
    }
  }

  /** A send goes through exactly when there is room, and a receive when there is something; then the one
      appends its message, and the other takes the oldest. */
  lemma Passes(s: Chan, op: Op)
    requires Inv(s)
    ensures var s' := Next(s, op);
            && s'.capacity == s.capacity
            && match op
               case Snd(m) =>
                 if |s.buffered| < s.capacity then
                   s'.buffered == s.buffered + [m] && s'.sent == s.sent + [m] && s'.received == s.received
                 else s' == s
               case Rcv =>
                 if |s.buffered| > 0 then
                   && s.buffered == [s.buffered[0]] + s'.buffered && s'.sent == s.sent
                   && s'.received == s.received + [s.buffered[0]]
                 else s' == s
  {
  }

  // ----- threads -----

  /** A thread is outside the channel code, or waits in the loop of a call. */
  datatype Pc = Idle | Waiting(op: Op)

  /** `calls` lists what each thread has asked to send. */
  datatype System = System(chan: Chan, pc: map<nat, Pc>, calls: map<nat, seq<Msg>>)

  /** Thread t is dispatched; when it is idle it makes the call `op`. */
  datatype Step = Step(t: nat, op: Op)

  ghost predicate Enabled(s: System, a: Step) {
    a.t in s.pc && a.t in s.calls && (a.op.Snd? ==> a.op.m.sender == a.t)
  }

  ghost function NextStep(s: System, a: Step): System
    requires Enabled(s, a)
  {
    var starts := s.pc[a.t].Idle?;
    var op := if starts then a.op else s.pc[a.t].op;
    System(Next(s.chan, op),
           s.pc[a.t := if Ready(s.chan, op) then Idle else Waiting(op)],
           if starts && op.Snd? then s.calls[a.t := s.calls[a.t] + [op.m]] else s.calls)
  }

  /** The messages of sender t, in order. */
  ghost function By(ms: seq<Msg>, t: nat): seq<Msg> {
    if |ms| == 0 then []
    else By(ms[..|ms| - 1], t) + if ms[|ms| - 1].sender == t then [ms[|ms| - 1]] else []
  }

  lemma ByAppend(ms: seq<Msg>, m: Msg, t: nat)
    ensures By(ms + [m], t) == By(ms, t) + if m.sender == t then [m] else []
  {
    assert (ms + [m])[..|ms|] == ms;
  }

  lemma {:induction false} ByPrefix(a: seq<Msg>, b: seq<Msg>, t: nat)
    ensures By(a, t) <= By(a + b, t)
    decreases |b|
  {
    if |b| == 0 {
      assert a + b == a;
    } else {
      ByPrefix(a, b[..|b| - 1], t);
      assert (a + b)[..|a + b| - 1] == a + b[..|b| - 1];
    }
  }

  /** What thread t has asked to send is what it has sent, and the message of the call it waits in. */
  ghost predicate ThreadOk(s: System, t: nat)
    requires t in s.pc
  {
    && t in s.calls
    && s.calls[t] == By(s.chan.sent, t) +
       (match s.pc[t] case Waiting(Snd(m)) => [m] case _ => [])
    && (s.pc[t].Waiting? && s.pc[t].op.Snd? ==> s.pc[t].op.m.sender == t)
  }

  ghost predicate SystemInv(s: System) {
    Inv(s.chan) && forall t {:trigger ThreadOk(s, t)} :: t in s.pc ==> ThreadOk(s, t)
  }

  lemma StepInv(s: System, a: Step)
    requires SystemInv(s) && Enabled(s, a)
    ensures SystemInv(NextStep(s, a))
  {
    hide By;
    var s' := NextStep(s, a);
    assert ThreadOk(s, a.t);
    var op := if s.pc[a.t].Idle? then a.op else s.pc[a.t].op;
    NextInv(s.chan, op);
    forall t | t in s'.pc ensures ThreadOk(s', t) {
      assert ThreadOk(s, t);
      if op.Snd? { ByAppend(s.chan.sent, op.m, t); }
    }
  }

  /** A dispatched thread whose call is a send waits on if and only if the channel is full, one whose call is
      a receive if and only if it is empty; and nobody else's call is touched. */
  lemma WaitsIff(s: System, a: Step)
    requires SystemInv(s) && Enabled(s, a)
    ensures var s', op := NextStep(s, a), if s.pc[a.t].Idle? then a.op else s.pc[a.t].op;
            && s'.chan == Next(s.chan, op)
            && a.t in s'.pc && (forall t :: t != a.t && t in s.pc ==> t in s'.pc && s'.pc[t] == s.pc[t])
            && s'.pc[a.t] ==
                 if (if op.Snd? then |s.chan.buffered| == s.chan.capacity else s.chan.buffered == []) then Waiting(op)
                 else Idle
  {
  }

  ghost predicate Run(s: System, steps: seq<Step>)
    decreases |steps|
  {
    |steps| > 0 ==> Enabled(s, steps[0]) && Run(NextStep(s, steps[0]), steps[1..])
  }

  ghost function Exec(s: System, steps: seq<Step>): System
    requires Run(s, steps)
    decreases |steps|
  {
    if |steps| == 0 then s else Exec(NextStep(s, steps[0]), steps[1..])
  }

  ghost function Start(capacity: nat, threads: set<nat>): System {
    System(Chan(capacity, [], [], []), map t | t in threads :: Idle, map t | t in threads :: [])
  }

  lemma {:induction false} RunInv(s: System, steps: seq<Step>)
    requires SystemInv(s) && Run(s, steps)
    ensures SystemInv(Exec(s, steps)) && Exec(s, steps).pc.Keys == s.pc.Keys
    decreases |steps|
  {
    if |steps| > 0 {
      StepInv(s, steps[0]);
      RunInv(NextStep(s, steps[0]), steps[1..]);
    }
  }

  /** For any interleaving of any senders and receivers: what has been received is a prefix of what has
      been sent, the rest is buffered and within capacity; and of each sender exactly its first messages
      have been received, in the order of its calls. */
  lemma ReceivedIsPrefix(capacity: nat, threads: set<nat>, steps: seq<Step>, t: nat)
    requires capacity >= 1 && t in threads && Run(Start(capacity, threads), steps)
    ensures var s := Exec(Start(capacity, threads), steps);
            && s.chan.sent == s.chan.received + s.chan.buffered && |s.chan.buffered| <= s.chan.capacity
            && t in s.calls && By(s.chan.received, t) <= By(s.chan.sent, t) <= s.calls[t]
  {
    var s0 := Start(capacity, threads);
    forall u | u in s0.pc ensures ThreadOk(s0, u) {}
    RunInv(s0, steps);
    var s := Exec(s0, steps);
    assert ThreadOk(s, t);
    ByPrefix(s.chan.received, s.chan.buffered, t);
  }

  /** Threads that wait in calls are dispatched and nothing else happens. */
  ghost predicate OnlyWaiters(s: System, steps: seq<Step>) {
    forall i :: 0 <= i < |steps| ==> steps[i].t in s.pc && s.pc[steps[i].t].Waiting?
  }

  /** A waiting call that does not get through leaves everything as it is. */
  lemma StillWaits(s: System, a: Step)
    requires Enabled(s, a) && s.pc[a.t].Waiting? && !Ready(s.chan, s.pc[a.t].op)
    ensures NextStep(s, a) == s
  {
    assert s.pc[a.t := s.pc[a.t]] == s.pc;
  }

  lemma {:induction false} CountsGrow(s: System, steps: seq<Step>)
    requires Run(s, steps)
    ensures var c := Exec(s, steps).chan;
            |c.sent| >= |s.chan.sent| && |c.received| >= |s.chan.received|
    decreases |steps|
  {
    if |steps| > 0 { CountsGrow(NextStep(s, steps[0]), steps[1..]); }
  }

  /** However many senders and receivers wait, and in whatever order they are dispatched, as soon as one of
      either kind has had its turn some call has gone through. */
  lemma {:induction false} Progress(s: System, steps: seq<Step>, i: nat, j: nat)
    requires SystemInv(s) && Run(s, steps) && OnlyWaiters(s, steps) && i < |steps| && j < |steps|
    requires s.pc[steps[i].t].op.Snd? && s.pc[steps[j].t].op.Rcv?
    ensures var c := Exec(s, steps).chan;
            |c.sent| + |c.received| > |s.chan.sent| + |s.chan.received|
    decreases |steps|
  {
    var a, s' := steps[0], NextStep(s, steps[0]);
    assert s.pc[a.t].Waiting?;
    if Ready(s.chan, s.pc[a.t].op) {
      CountsGrow(s', steps[1..]);
    } else {
      StillWaits(s, a);
      if i > 0 && j > 0 {
        assert forall k :: 0 <= k < |steps[1..]| ==> steps[1..][k] == steps[k + 1];
        Progress(s, steps[1..], i - 1, j - 1);
      } else {
        OtherSide(s, steps, if i == 0 then j else i);
      }
    }
  }

  /** The buffer is full, or it is empty: the first waiting call of the other kind gets through. */
  lemma {:induction false} OtherSide(s: System, steps: seq<Step>, k: nat)
    requires SystemInv(s) && Run(s, steps) && OnlyWaiters(s, steps) && k < |steps|
    requires Ready(s.chan, s.pc[steps[k].t].op)
    ensures var c := Exec(s, steps).chan;
            |c.sent| + |c.received| > |s.chan.sent| + |s.chan.received|
    decreases |steps|
  {
    var a, s' := steps[0], NextStep(s, steps[0]);
    assert s.pc[a.t].Waiting?;
    if Ready(s.chan, s.pc[a.t].op) {
      CountsGrow(s', steps[1..]);
    } else {
      StillWaits(s, a);
      assert forall k :: 0 <= k < |steps[1..]| ==> steps[1..][k] == steps[k + 1];
      OtherSide(s, steps[1..], k - 1);
    }
  }
}
