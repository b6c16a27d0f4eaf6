/** The memory that the critical sections of sl.c work on, and their bodies as single loads and stores.

    The links of the ready lists are named: `Head(i)` is the head of list i, `Of(t)` the link inside
    thread t.  The main result is that a body run from start to end on a memory that stands for a policy
    state leaves a memory that stands for the next one.
  */
module SlMemory {
  import opened Options
  import opened SlModel
  import opened SlInvariant

  datatype Link = Head(i: nat) | Of(t: nat)

  /** The `n` and `p` words of the links, and the `state` and `priority` words of the threads. */
  datatype Mem = Mem(n: map<Link, Link>, p: map<Link, Link>, state: map<nat, SlState>, prio: map<nat, nat>)

  /** A word that was never written holds its own address, as after `ps_list_ll_init`. */
  ghost function Word(m: map<Link, Link>, a: Link): Link {
    if a in m then m[a] else a
  }

  // ----- instructions -----

  datatype Field = N | P

  /** The links that a body has at hand: its thread's own, the head of the list for its priority, and what
      it has loaded into two registers. */
  datatype Operand = Own | Top | X | Y

  datatype Instr =
    | LoadX(f: Field, of: Operand)
    | LoadY(f: Field, of: Operand)
    | Store(f: Field, of: Operand, val: Operand)
    | LoadPrio
    | StoreState(state: SlState)

  datatype Regs = Regs(t: nat, prio: nat, x: Link, y: Link)

  ghost function Value(r: Regs, o: Operand): Link {
    match o
    case Own => Of(r.t)
    case Top => Head(r.prio)
    case X => r.x
    case Y => r.y
  }

  ghost function Fetch(m: Mem, f: Field, a: Link): Link {
    if f == N then Word(m.n, a) else Word(m.p, a)
  }

  /** One load or store. */
  ghost function Do(m: Mem, r: Regs, ins: Instr): (Mem, Regs) {
    match ins
    case LoadX(f, of) => (m, r.(x := Fetch(m, f, Value(r, of))))
    case LoadY(f, of) => (m, r.(y := Fetch(m, f, Value(r, of))))
    case Store(f, of, val) =>
      (if f == N then m.(n := m.n[Value(r, of) := Value(r, val)])
       else m.(p := m.p[Value(r, of) := Value(r, val)]), r)
    case LoadPrio => (m, if r.t in m.prio then r.(prio := m.prio[r.t]) else r)
    case StoreState(state) => (m.(state := m.state[r.t := state]), r)
  }

  ghost function RunCode(m: Mem, r: Regs, code: seq<Instr>): (Mem, Regs)
    decreases |code|
  {
    if |code| == 0 then (m, r) else var (m', r') := Do(m, r, code[0]); RunCode(m', r', code[1..])
  }

  /** `ps_list_ll_rem`: each of its assignments loads what it needs and then stores. */
  const REM: seq<Instr> :=
    [LoadX(N, Own), LoadY(P, Own), Store(P, X, Y),
     LoadX(P, Own), LoadY(N, Own), Store(N, X, Y),
     Store(N, Own, Own), Store(P, Own, Own)]

  /** `ps_list_head_append_d`: `ps_list_ll_add` at the last link. */
  const APPEND: seq<Instr> :=
    [LoadPrio, LoadX(P, Top), LoadY(N, X), Store(N, Own, Y), Store(P, Own, X), Store(N, X, Own),
     LoadY(N, Own), Store(P, Y, Own)]

  /** The assertion of `sl_mod_wakeup`: the thread's priority, and that it is alone in its list. */
  const CHECK: seq<Instr> := [LoadPrio, LoadX(N, Own)]

  /** The calls a thread can make.  `DoYieldTo` is the directed `sl_thd_yield`. */
  datatype Call = DoBlock | DoWakeup(t: nat) | DoYield | DoYieldTo(to: nat)

  /** The thread whose state the body loads first. */
  ghost function Subject(c: nat, call: Call): nat {
    if call.DoWakeup? then call.t else c
  }

  /** What remains of the body once that state is known. */
  ghost function Body(call: Call, state: SlState): seq<Instr> {
    match call
    case DoBlock => if state == Woken then [StoreState(Runnable)] else [StoreState(Blocked)] + REM
    case DoWakeup(_) =>
      if state == Runnable then [StoreState(Woken)] else [StoreState(Runnable)] + (CHECK + APPEND)
    case DoYield => [LoadPrio] + (REM + APPEND)
    case DoYieldTo(_) => []
  }

  ghost function OpOf(c: nat, call: Call): Op {
    match call
    case DoBlock => Block(c)
    case DoWakeup(t) => Wakeup(t)
    case DoYield => Yield(c)
    case DoYieldTo(_) => Yield(c)
  }

  // ----- what a memory stands for -----

  /** The link at position k of s points to its neighbours both ways, around the end. */
  ghost predicate Joined(n: map<Link, Link>, p: map<Link, Link>, s: seq<Link>, k: nat)
    requires k < |s|
  {
    && Word(n, s[k]) == s[if k + 1 == |s| then 0 else k + 1]
    && Word(p, s[k]) == s[if k == 0 then |s| - 1 else k - 1]
  }

  /** The links of s, in order, form one circular list. */
  ghost predicate Ring(n: map<Link, Link>, p: map<Link, Link>, s: seq<Link>) {
    |s| > 0 && forall k {:trigger Joined(n, p, s, k)} :: 0 <= k < |s| ==> Joined(n, p, s, k)
  }

  /** Head i and then the links of the threads q. */
  ghost function Line(i: nat, q: seq<nat>): (s: seq<Link>)
    ensures |s| == |q| + 1 && s[0] == Head(i)
    ensures forall k :: 0 <= k < |q| ==> s[k + 1] == Of(q[k])
  {
    [Head(i)] + seq(|q|, k requires 0 <= k < |q| => Of(q[k]))
  }

  ghost predicate RingAt(m: Mem, sl: Sl, i: nat)
    requires i < |sl.queues|
  {
    Ring(m.n, m.p, Line(i, sl.queues[i]))
  }

  ghost predicate Lone(m: Mem, t: nat) {
    Word(m.n, Of(t)) == Of(t) && Word(m.p, Of(t)) == Of(t)
  }

  ghost predicate ThreadAt(m: Mem, sl: Sl, t: nat)
    requires t in sl.thd
  {
    && t in m.state && t in m.prio && m.state[t] == sl.thd[t].state && m.prio[t] == sl.thd[t].prio
    && (!Queued(sl, t) ==> Lone(m, t))
  }

  ghost predicate Represents(m: Mem, sl: Sl) {
    && |sl.queues| == NPRIOS && m.state.Keys == sl.thd.Keys
    && (forall i {:trigger RingAt(m, sl, i)} :: 0 <= i < NPRIOS ==> RingAt(m, sl, i))
    && (forall t {:trigger ThreadAt(m, sl, t)} :: t in sl.thd ==> ThreadAt(m, sl, t))
  }

  // ----- what the code does -----

  lemma {:induction false} RunBoth(m: Mem, r: Regs, a: seq<Instr>, b: seq<Instr>)
    ensures RunCode(m, r, a + b) == RunCode(RunCode(m, r, a).0, RunCode(m, r, a).1, b)
    decreases |a|
  {
    if |a| == 0 {
      assert a + b == b;
    } else {
      RunBoth(Do(m, r, a[0]).0, Do(m, r, a[0]).1, a[1..], b);
      assert (a + b)[1..] == a[1..] + b;
    }
  }

  lemma RunThree(m: Mem, r: Regs, a: Instr, b: Instr, c: Instr)
    ensures var (m1, r1) := Do(m, r, a); var (m2, r2) := Do(m1, r1, b);
            RunCode(m, r, [a, b, c]) == Do(m2, r2, c)
  {
    var (m1, r1) := Do(m, r, a);
    var (m2, r2) := Do(m1, r1, b);
    var (m3, r3) := Do(m2, r2, c);
    assert [a, b, c][1..] == [b, c] && [b, c][1..] == [c] && [c][1..] == [];
    assert RunCode(m2, r2, [c]) == RunCode(m3, r3, []);
    assert RunCode(m1, r1, [b, c]) == RunCode(m2, r2, [c]);
  }

  lemma RunTwo(m: Mem, r: Regs, a: Instr, b: Instr)
    ensures var (m1, r1) := Do(m, r, a); RunCode(m, r, [a, b]) == Do(m1, r1, b)
  {
    var (m1, r1) := Do(m, r, a);
    var (m2, r2) := Do(m1, r1, b);
    assert [a, b][1..] == [b] && [b][1..] == [];
    assert RunCode(m1, r1, [b]) == RunCode(m2, r2, []);
  }

  /** The memory after `ps_list_ll_rem` of thread t's link. */
  ghost function Removed(m: Mem, t: nat): Mem {
    var a := Of(t);
    var n0, p0 := Word(m.n, a), Word(m.p, a);
    m.(n := m.n[p0 := n0][a := a], p := m.p[n0 := p0][a := a])
  }

  /** The memory after thread t's link has been appended to list i. */
  ghost function Appended(m: Mem, t: nat, i: nat): Mem {
    var a, last := Of(t), Word(m.p, Head(i));
    var first := Word(m.n, last);
    m.(n := m.n[a := first][last := a], p := m.p[a := last][first := a])
  }

  lemma RunRem(m: Mem, r: Regs)
    ensures RunCode(m, r, REM).0 == Removed(m, r.t)
    ensures RunCode(m, r, REM).1.t == r.t && RunCode(m, r, REM).1.prio == r.prio
  {
    hide RunCode;
    var one, two, three := [LoadX(N, Own), LoadY(P, Own), Store(P, X, Y)],
                           [LoadX(P, Own), LoadY(N, Own), Store(N, X, Y)], [Store(N, Own, Own), Store(P, Own, Own)];
    assert REM == one + (two + three);
    RunThree(m, r, one[0], one[1], one[2]);
    RunBoth(m, r, one, two + three);
    var (m1, r1) := RunCode(m, r, one);
    RunThree(m1, r1, two[0], two[1], two[2]);
    RunBoth(m1, r1, two, three);
    var (m2, r2) := RunCode(m1, r1, two);
    RunTwo(m2, r2, three[0], three[1]);
  }

  lemma RunAppend(m: Mem, r: Regs)
    requires r.t in m.prio && Word(m.p, Head(m.prio[r.t])) != Of(r.t)
    ensures RunCode(m, r, APPEND).0 == Appended(m, r.t, m.prio[r.t])
  {
    hide RunCode;
    var one, two, three := [LoadPrio, LoadX(P, Top), LoadY(N, X)],
                           [Store(N, Own, Y), Store(P, Own, X), Store(N, X, Own)], [LoadY(N, Own), Store(P, Y, Own)];
    assert APPEND == one + (two + three);
    RunThree(m, r, one[0], one[1], one[2]);
    RunBoth(m, r, one, two + three);
    var (m1, r1) := RunCode(m, r, one);
    RunThree(m1, r1, two[0], two[1], two[2]);
    RunBoth(m1, r1, two, three);
    var (m2, r2) := RunCode(m1, r1, two);
    RunTwo(m2, r2, three[0], three[1]);
  }

  // ----- what it means for the lists -----

  lemma {:induction false} DistinctAt(q: seq<nat>, j: nat, k: nat)
    requires Distinct(q) && j < k < |q|
    ensures q[j] != q[k]
  {
    if j > 0 { DistinctAt(q[1..], j - 1, k - 1); } else { assert q[k] == q[1..][k - 1]; }
  }

  /** No link occurs twice. */
  ghost predicate Once(s: seq<Link>) {
    forall j, k :: 0 <= j < k < |s| ==> s[j] != s[k]
  }

  lemma Differ(s: seq<Link>, j: nat, k: nat)
    requires Once(s) && j < |s| && k < |s| && j != k
    ensures s[j] != s[k]
  {
  }

  lemma LineOnce(i: nat, q: seq<nat>)
    requires Distinct(q)
    ensures Once(Line(i, q))
  {
    var s := Line(i, q);
    forall j, k | 0 <= j < k < |s| ensures s[j] != s[k] {
      assert s[k - 1 + 1] == Of(q[k - 1]);
      if j > 0 {
        DistinctAt(q, j - 1, k - 1);
        assert s[j - 1 + 1] == Of(q[j - 1]);
      }
    }
  }

  /** A list none of whose words has changed. */
  lemma RingKept(n: map<Link, Link>, p: map<Link, Link>, n': map<Link, Link>, p': map<Link, Link>, s: seq<Link>)
    requires Ring(n, p, s) && forall l :: l in s ==> Word(n', l) == Word(n, l) && Word(p', l) == Word(p, l)
    ensures Ring(n', p', s)
  {
    forall k | 0 <= k < |s| ensures Joined(n', p', s, k) { assert Joined(n, p, s, k) && s[k] in s; }
  }

  /** Position j of s after position k has been taken out. */
  lemma JoinedRemoved(n: map<Link, Link>, p: map<Link, Link>, s: seq<Link>, k: nat, j: nat)
    requires 0 < k < |s| && Once(s) && j < |s| && j != k && Joined(n, p, s, j)
    ensures var r, next := s[..k] + s[k + 1..], if k + 1 == |s| then 0 else k + 1;
            Joined(n[s[k - 1] := s[next]][s[k] := s[k]], p[s[next] := s[k - 1]][s[k] := s[k]],
                   r, if j < k then j else j - 1)
  {
    var next := if k + 1 == |s| then 0 else k + 1;
    Differ(s, j, k);
    if j != k - 1 { Differ(s, j, k - 1); }
    if j != next { Differ(s, j, next); }
  }

  lemma RingRemoved(n: map<Link, Link>, p: map<Link, Link>, s: seq<Link>, k: nat)
    requires Ring(n, p, s) && 0 < k < |s| && Once(s)
    ensures var a := s[k];
            Ring(n[Word(p, a) := Word(n, a)][a := a], p[Word(n, a) := Word(p, a)][a := a], s[..k] + s[k + 1..])
  {
    hide Once;
    var a, r := s[k], s[..k] + s[k + 1..];
    assert Joined(n, p, s, k);
    var n', p' := n[Word(p, a) := Word(n, a)][a := a], p[Word(n, a) := Word(p, a)][a := a];
    forall j | 0 <= j < |r| ensures Joined(n', p', r, j) {
      var j0 := if j < k then j else j + 1;
      assert Joined(n, p, s, j0);
      JoinedRemoved(n, p, s, k, j0);
    }
  }

  /** Position j of s after a has been added at the end. */
  lemma JoinedAppended(n: map<Link, Link>, p: map<Link, Link>, s: seq<Link>, a: Link, j: nat)
    requires Once(s) && a !in s && j < |s| && Joined(n, p, s, j)
    ensures var e := |s| - 1;
            Joined(n[a := s[0]][s[e] := a], p[a := s[e]][s[0] := a], s + [a], j)
  {
    if j < |s| - 1 { Differ(s, j, |s| - 1); }
    if j > 0 { Differ(s, j, 0); }
  }

  lemma RingAppended(n: map<Link, Link>, p: map<Link, Link>, s: seq<Link>, a: Link)
    requires Ring(n, p, s) && a !in s && Once(s)
    ensures var last := Word(p, s[0]); var first := Word(n, last);
            last != a && Ring(n[a := first][last := a], p[a := last][first := a], s + [a])
  {
    hide Once;
    var e := |s| - 1;
    assert Joined(n, p, s, 0) && Joined(n, p, s, e);
    var r, n', p' := s + [a], n[a := s[0]][s[e] := a], p[a := s[e]][s[0] := a];
    forall j | 0 <= j < |r| ensures Joined(n', p', r, j) {
      if j < |s| {
        assert Joined(n, p, s, j);
        JoinedAppended(n, p, s, a, j);
      }
    }
  }

  /** Line i without the thread at position k of its queue. */
  lemma LineWithout(i: nat, q: seq<nat>, k: nat)
    requires k < |q|
    ensures Line(i, q[..k] + q[k + 1..]) == Line(i, q)[..k + 1] + Line(i, q)[k + 2..]
  {
  }

  /** Lists i and j share no link, and a thread's link is only in the list of its queue. */
  lemma LinesApart(sl: Sl, i: nat, j: nat)
    requires AllApart(sl) && i < NPRIOS && j < NPRIOS && i != j
    ensures forall l :: l in Line(i, sl.queues[i]) ==> l !in Line(j, sl.queues[j])
  {
    assert Apart(sl, i) && Apart(sl, j);
    forall l | l in Line(i, sl.queues[i]) ensures l !in Line(j, sl.queues[j]) {
      if l.Of? {
        InLine(i, sl.queues[i], l.t);
        InLine(j, sl.queues[j], l.t);
      } else {
        HeadOfLine(i, sl.queues[i], l.i);
        HeadOfLine(j, sl.queues[j], l.i);
      }
    }
  }

  lemma InLine(i: nat, q: seq<nat>, t: nat)
    ensures Of(t) in Line(i, q) <==> t in q
  {
    var s := Line(i, q);
    if t in q {
      var k :| 0 <= k < |q| && q[k] == t;
      assert s[k + 1] == Of(t);
    }
    if Of(t) in s {
      var k :| 0 <= k < |s| && s[k] == Of(t);
      assert s[k - 1 + 1] == Of(q[k - 1]);
    }
  }

  lemma HeadOfLine(i: nat, q: seq<nat>, h: nat)
    ensures Head(h) in Line(i, q) <==> h == i
  {
    var s := Line(i, q);
    forall k | 0 < k < |s| ensures s[k].Of? { assert s[k - 1 + 1] == Of(q[k - 1]); }
  }

  // ----- whole bodies -----

  /** Removing thread t's link changes no word of a list that does not hold it. */
  lemma RemovedElsewhere(m: Mem, sl: Sl, t: nat, at: Option<nat>, k: nat, l: Link)
    requires Represents(m, sl) && AllApart(sl) && t in sl.thd && l != Of(t)
    requires match at
             case None => !Queued(sl, t)
             case Some(i) => i < NPRIOS && k < |sl.queues[i]| && sl.queues[i][k] == t && l !in Line(i, sl.queues[i])
    ensures Word(Removed(m, t).n, l) == Word(m.n, l) && Word(Removed(m, t).p, l) == Word(m.p, l)
  {
    if at.Some? {
      var s := Line(at.value, sl.queues[at.value]);
      assert RingAt(m, sl, at.value) && Joined(m.n, m.p, s, k + 1) && s[k + 1] == Of(t);
    } else {
      assert ThreadAt(m, sl, t);
    }
  }

  /** The other lists, after thread t has been taken out of the list it is in. */
  lemma RemovedList(m: Mem, sl: Sl, t: nat, at: Option<nat>, k: nat, i: nat)
    requires Represents(m, sl) && AllApart(sl) && t in sl.thd && i < NPRIOS && at != Some(i)
    requires match at
             case None => !Queued(sl, t)
             case Some(j) => j < NPRIOS && k < |sl.queues[j]| && sl.queues[j][k] == t
    ensures Ring(Removed(m, t).n, Removed(m, t).p, Line(i, sl.queues[i]))
  {
    hide Distinct, Removed, Ring;
    var s := Line(i, sl.queues[i]);
    assert RingAt(m, sl, i);
    if at.Some? { LinesApart(sl, i, at.value); InLine(at.value, sl.queues[at.value], t); }
    InLine(i, sl.queues[i], t);
    forall l | l in s
      ensures Word(Removed(m, t).n, l) == Word(m.n, l) && Word(Removed(m, t).p, l) == Word(m.p, l)
    {
      RemovedElsewhere(m, sl, t, at, k, l);
    }
    RingKept(m.n, m.p, Removed(m, t).n, Removed(m, t).p, s);
  }

  lemma RemovedOwnList(m: Mem, sl: Sl, t: nat, i: nat, k: nat)
    requires Represents(m, sl) && AllApart(sl) && i < NPRIOS && k < |sl.queues[i]| && sl.queues[i][k] == t
    ensures var q := sl.queues[i]; Ring(Removed(m, t).n, Removed(m, t).p, Line(i, q[..k] + q[k + 1..]))
  {
    var q := sl.queues[i];
    assert RingAt(m, sl, i) && Apart(sl, i);
    LineOnce(i, q);
    LineWithout(i, q, k);
    assert Line(i, q)[k + 1] == Of(t);
    hide Distinct, Ring, Once;
    RingRemoved(m.n, m.p, Line(i, q), k + 1);
  }

  /** `ps_list_ll_rem` takes thread t out of its queue, if it is in one, and leaves its link alone. */
  lemma RemovedIs(m: Mem, sl: Sl, t: nat)
    requires Represents(m, sl) && AllApart(sl) && Shaped(sl) && t in sl.thd
    ensures var sl' := sl.(queues := Dequeue(sl.queues, t));
            Represents(Removed(m, t), sl') && AllApart(sl') && !Queued(sl', t) && Lone(Removed(m, t), t)
  {
    var sl', m' := sl.(queues := Dequeue(sl.queues, t)), Removed(m, t);
    var at, k := Position(sl, t);
    DequeueApart(sl, t);
    hide Distinct, Apart, Ring, Except, Queued;
    forall i | 0 <= i < NPRIOS ensures RingAt(m', sl', i) {
      if at == Some(i) { RemovedOwnList(m, sl, t, i, k); } else { RemovedList(m, sl, t, at, k, i); }
    }
    forall u | u in sl'.thd ensures ThreadAt(m', sl', u) {
      assert ThreadAt(m, sl, u);
      if u != t && !Queued(sl', u) {
        if at.Some? { NotInLine(sl, u, at.value); }
        RemovedElsewhere(m, sl, t, at, k, Of(u));
      }
    }
  }

  lemma NotInLine(sl: Sl, u: nat, i: nat)
    requires i < |sl.queues| && !Queued(sl, u)
    ensures Of(u) !in Line(i, sl.queues[i])
  {
    InLine(i, sl.queues[i], u);
  }

  /** Appending changes only the words of thread t's link and of the two ends of list i. */
  lemma AppendedElsewhere(m: Mem, sl: Sl, t: nat, i: nat, l: Link)
    requires Represents(m, sl) && i < NPRIOS && l != Of(t) && l !in Line(i, sl.queues[i])
    ensures Word(Appended(m, t, i).n, l) == Word(m.n, l) && Word(Appended(m, t, i).p, l) == Word(m.p, l)
  {
    var s := Line(i, sl.queues[i]);
    assert RingAt(m, sl, i) && Joined(m.n, m.p, s, 0) && Joined(m.n, m.p, s, |s| - 1);
  }

  lemma AppendedOwnList(m: Mem, sl: Sl, t: nat, i: nat)
    requires Represents(m, sl) && AllApart(sl) && i < NPRIOS && !Queued(sl, t)
    ensures Word(m.p, Head(i)) != Of(t)
    ensures Ring(Appended(m, t, i).n, Appended(m, t, i).p, Line(i, sl.queues[i] + [t]))
  {
    var s := Line(i, sl.queues[i]);
    assert RingAt(m, sl, i) && Apart(sl, i);
    LineOnce(i, sl.queues[i]);
    NotInLine(sl, t, i);
    assert Line(i, sl.queues[i] + [t]) == s + [Of(t)];
    hide Distinct, Ring, Once;
    RingAppended(m.n, m.p, s, Of(t));
  }

  lemma AppendedList(m: Mem, sl: Sl, t: nat, i: nat, j: nat)
    requires Represents(m, sl) && AllApart(sl) && i < NPRIOS && !Queued(sl, t) && j < NPRIOS && j != i
    ensures Ring(Appended(m, t, i).n, Appended(m, t, i).p, Line(j, sl.queues[j]))
  {
    hide Distinct, Appended, Ring;
    var s := Line(j, sl.queues[j]);
    assert RingAt(m, sl, j);
    LinesApart(sl, j, i);
    NotInLine(sl, t, j);
    forall l | l in s
      ensures Word(Appended(m, t, i).n, l) == Word(m.n, l) && Word(Appended(m, t, i).p, l) == Word(m.p, l)
    {
      AppendedElsewhere(m, sl, t, i, l);
    }
    RingKept(m.n, m.p, Appended(m, t, i).n, Appended(m, t, i).p, s);
  }

  /** `ps_list_head_append_d` puts a thread that is in no queue at the end of the queue for its priority. */
  lemma AppendedIs(m: Mem, sl: Sl, t: nat)
    requires Represents(m, sl) && AllApart(sl) && Shaped(sl) && t in sl.thd && !Queued(sl, t)
    ensures var i := sl.thd[t].prio; var sl' := sl.(queues := Enqueue(sl.queues, i, t));
            && Word(m.p, Head(i)) != Of(t)
            && Represents(Appended(m, t, i), sl') && AllApart(sl')
  {
    var p := sl.thd[t].prio;
    var sl', m' := sl.(queues := Enqueue(sl.queues, p, t)), Appended(m, t, p);
    EnqueueApart(sl, t);
    AppendedOwnList(m, sl, t, p);
    hide Distinct, Apart, Ring, Queued;
    forall i | 0 <= i < NPRIOS ensures RingAt(m', sl', i) { if i != p { AppendedList(m, sl, t, p, i); } }
    forall u | u in sl'.thd ensures ThreadAt(m', sl', u) {
      assert ThreadAt(m, sl, u);
      if u != t && !Queued(sl', u) {
        NotInLine(sl, u, p);
        AppendedElsewhere(m, sl, t, p, Of(u));
      }
    }
  }

  lemma InvApart(sl: Sl)
    requires SlModel.Inv(sl)
    ensures AllApart(sl) && Shaped(sl)
  {
    forall i | 0 <= i < NPRIOS ensures Apart(sl, i) { assert QueueOk(sl, i); }
  }

  /** A store to a thread's state; what else the model keeps about the thread has no word in memory. */
  lemma StateStored(m: Mem, sl: Sl, t: nat, c: Thd)
    requires Represents(m, sl) && AllApart(sl) && Shaped(sl) && t in sl.thd && c.prio == sl.thd[t].prio
    ensures var sl' := sl.(thd := sl.thd[t := c]);
            && Represents(m.(state := m.state[t := c.state]), sl') && AllApart(sl') && Shaped(sl')
            && (Queued(sl', t) <==> Queued(sl, t))
  {
    var sl', m' := sl.(thd := sl.thd[t := c]), m.(state := m.state[t := c.state]);
    SameQueues(sl, t, c);
    hide Apart, Queued;
    forall i | 0 <= i < NPRIOS ensures RingAt(m', sl', i) { assert RingAt(m, sl, i); }
    forall u | u in sl'.thd ensures ThreadAt(m', sl', u) { assert ThreadAt(m, sl, u) && ThreadAt(m, sl, t); }
  }

  lemma RunOne(m: Mem, r: Regs, ins: Instr)
    ensures RunCode(m, r, [ins]) == Do(m, r, ins)
  {
    var (m1, r1) := Do(m, r, ins);
    assert RunCode(m1, r1, [ins][1..]) == (m1, r1);
  }

  lemma SameState(m: Mem, sl: Sl, t: nat)
    requires Represents(m, sl) && t in sl.thd
    ensures t in m.state && m.state[t] == sl.thd[t].state && t in m.prio && m.prio[t] == sl.thd[t].prio
  {
    assert ThreadAt(m, sl, t);
  }

  lemma RemCode(m: Mem, sl: Sl, r: Regs)
    requires Represents(m, sl) && AllApart(sl) && Shaped(sl) && r.t in sl.thd
    ensures var sl' := sl.(queues := Dequeue(sl.queues, r.t));
            && Represents(RunCode(m, r, REM).0, sl') && AllApart(sl') && Shaped(sl') && !Queued(sl', r.t)
    ensures RunCode(m, r, REM).1.t == r.t
  {
    hide Represents, AllApart, Queued, Removed, RunCode;
    RunRem(m, r);
    RemovedIs(m, sl, r.t);
  }

  lemma AppendCode(m: Mem, sl: Sl, r: Regs)
    requires Represents(m, sl) && AllApart(sl) && Shaped(sl) && r.t in sl.thd && !Queued(sl, r.t)
    ensures Represents(RunCode(m, r, APPEND).0, sl.(queues := Enqueue(sl.queues, sl.thd[r.t].prio, r.t)))
  {
    hide Represents, AllApart, Queued, Appended, RunCode;
    SameState(m, sl, r.t);
    AppendedIs(m, sl, r.t);
    RunAppend(m, r);
  }

  /** Loads change registers only. */
  lemma CheckCode(m: Mem, r: Regs)
    ensures RunCode(m, r, CHECK).0 == m && RunCode(m, r, CHECK).1.t == r.t
    ensures RunCode(m, r, [LoadPrio]).0 == m && RunCode(m, r, [LoadPrio]).1.t == r.t
  {
    RunTwo(m, r, CHECK[0], CHECK[1]);
    RunOne(m, r, LoadPrio);
  }

  lemma BlockBody(m: Mem, sl: Sl, t: nat, r: Regs)
    requires Represents(m, sl) && SlModel.Inv(sl) && Allowed(sl, Block(t)) && r.t == t && t in m.state
    ensures Represents(RunCode(m, r, Body(DoBlock, m.state[t])).0, Next(sl, Block(t)))
  {
    hide SlModel.Inv, Represents, AllApart, Queued, RunCode, Dequeue, Shaped;
    InvApart(sl);
    SameState(m, sl, t);
    var st := if m.state[t] == Woken then Runnable else Blocked;
    var c := sl.thd[t].(state := st, blocks := sl.thd[t].blocks + 1);
    StateStored(m, sl, t, c);
    RunOne(m, r, StoreState(st));
    if st == Blocked {
      RunBoth(m, r, [StoreState(st)], REM);
      var m1, sl1 := m.(state := m.state[t := st]), sl.(thd := sl.thd[t := c]);
      RemCode(m1, sl1, r);
    }
  }

  lemma WakeupBody(m: Mem, sl: Sl, t: nat, r: Regs)
    requires Represents(m, sl) && SlModel.Inv(sl) && t in sl.thd && Allowed(sl, Wakeup(t)) && r.t == t && t in m.state
    ensures Represents(RunCode(m, r, Body(DoWakeup(t), m.state[t])).0, Next(sl, Wakeup(t)))
  {
    InvApart(sl);
    SameState(m, sl, t);
    if sl.thd[t].state == Blocked { WokenThreadIsAlone(sl, t); }
    hide SlModel.Inv, Represents, AllApart, Queued, RunCode, Enqueue, Shaped;
    var st := if m.state[t] == Runnable then Woken else Runnable;
    var c := sl.thd[t].(state := st, wakeups := sl.thd[t].wakeups + 1);
    StateStored(m, sl, t, c);
    RunOne(m, r, StoreState(st));
    if st == Runnable {
      var m1, sl1 := m.(state := m.state[t := st]), sl.(thd := sl.thd[t := c]);
      RunBoth(m, r, [StoreState(st)], CHECK + APPEND);
      CheckCode(m1, r);
      RunBoth(m1, r, CHECK, APPEND);
      AppendCode(m1, sl1, RunCode(m1, r, CHECK).1);
    }
  }

  lemma YieldBody(m: Mem, sl: Sl, t: nat, r: Regs)
    requires Represents(m, sl) && SlModel.Inv(sl) && Allowed(sl, Yield(t)) && r.t == t && t in m.state
    ensures Represents(RunCode(m, r, Body(DoYield, m.state[t])).0, Next(sl, Yield(t)))
  {
    hide SlModel.Inv, Represents, AllApart, Queued, RunCode, Enqueue, Dequeue, Shaped, Do;
    InvApart(sl);
    CheckCode(m, r);
    RunBoth(m, r, [LoadPrio], REM + APPEND);
    var r1 := RunCode(m, r, [LoadPrio]).1;
    RemCode(m, sl, r1);
    RunBoth(m, r1, REM, APPEND);
    AppendCode(RunCode(m, r1, REM).0, sl.(queues := Dequeue(sl.queues, t)), RunCode(m, r1, REM).1);
  }

  /** The body of a call, run from its first load or store to its last without anybody else touching the
      memory, is one operation of the policy. */
  lemma BodyIsOperation(m: Mem, sl: Sl, c: nat, call: Call, r: Regs)
    requires Represents(m, sl) && SlModel.Inv(sl) && !call.DoYieldTo? && Allowed(sl, OpOf(c, call))
    requires Subject(c, call) in m.state && r.t == Subject(c, call)
    ensures Represents(RunCode(m, r, Body(call, m.state[r.t])).0, Next(sl, OpOf(c, call)))
  {
    match call
    case DoBlock => BlockBody(m, sl, c, r);
    case DoWakeup(t) => WakeupBody(m, sl, t, r);
    case DoYield => YieldBody(m, sl, c, r);
  }

  /** What the scan of `sl_mod_schedule` reads at head i. */
  lemma HeadReads(m: Mem, sl: Sl, i: nat)
    requires Represents(m, sl) && i < NPRIOS
    ensures Word(m.n, Head(i)) == if sl.queues[i] == [] then Head(i) else Of(sl.queues[i][0])
  {
    var s := Line(i, sl.queues[i]);
    assert RingAt(m, sl, i) && Joined(m.n, m.p, s, 0);
    if sl.queues[i] != [] { assert s[0 + 1] == Of(sl.queues[i][0]); }
  }

  /** In memory a thread is queued exactly when its link is not alone. */
  lemma QueuedReads(m: Mem, sl: Sl, t: nat)
    requires Represents(m, sl) && AllApart(sl) && t in sl.thd
    ensures Word(m.n, Of(t)) != Of(t) <==> Queued(sl, t)
  {
    assert ThreadAt(m, sl, t);
    if Queued(sl, t) {
      var i :| 0 <= i < |sl.queues| && t in sl.queues[i];
      var k :| 0 <= k < |sl.queues[i]| && sl.queues[i][k] == t;
      var s := Line(i, sl.queues[i]);
      assert Apart(sl, i) && RingAt(m, sl, i);
      assert s[k + 1] == Of(t) && Joined(m.n, m.p, s, k + 1);
      LineOnce(i, sl.queues[i]);
      Differ(s, k + 1, if k + 2 == |s| then 0 else k + 2);
    }
  }

  // ----- the operations outside the lock -----

  /** The memory after `sl_thd_alloc_init` and `sl_mod_thd_create`. */
  ghost function Created(m: Mem, t: nat): Mem {
    Mem(m.n[Of(t) := Of(t)], m.p[Of(t) := Of(t)], m.state[t := Runnable], m.prio[t := LOWEST])
  }

  lemma CreatedIs(m: Mem, sl: Sl, t: nat)
    requires Represents(m, sl) && AllApart(sl) && t !in sl.thd
    ensures Represents(Created(m, t), sl.(thd := sl.thd[t := Thd(Runnable, LOWEST, false, 0, 0)]))
  {
    var m', sl' := Created(m, t), sl.(thd := sl.thd[t := Thd(Runnable, LOWEST, false, 0, 0)]);
    forall i | 0 <= i < NPRIOS ensures RingAt(m', sl', i) {
      assert RingAt(m, sl, i) && Apart(sl, i);
      InLine(i, sl.queues[i], t);
      RingKept(m.n, m.p, m'.n, m'.p, Line(i, sl.queues[i]));
    }
    NewApart(sl, t);
    hide Queued, Apart;
    forall u | u in sl'.thd ensures ThreadAt(m', sl', u) { if u != t { assert ThreadAt(m, sl, u); } }
  }

  /** The memory after `sl_mod_thd_param_set`. */
  ghost function Placed(m: Mem, t: nat, v: nat): Mem {
    var m1 := Removed(m, t);
    Appended(m1.(prio := m1.prio[t := v]), t, v)
  }

  lemma PlacedIs(m: Mem, sl: Sl, t: nat, v: nat)
    requires Represents(m, sl) && AllApart(sl) && Shaped(sl) && t in sl.thd && v < NPRIOS
    ensures Represents(Placed(m, t, v), Next(sl, ParamSet(t, v)))
  {
    RemovedIs(m, sl, t);
    var m1, sl1 := Removed(m, t), sl.(queues := Dequeue(sl.queues, t));
    var c := sl.thd[t].(prio := v, placed := true);
    var m2, sl2 := m1.(prio := m1.prio[t := v]), sl1.(thd := sl1.thd[t := c]);
    SameQueues(sl1, t, c);
    hide Removed, Queued, Apart, Dequeue;
    forall i | 0 <= i < NPRIOS ensures RingAt(m2, sl2, i) { assert RingAt(m1, sl1, i); }
    forall u | u in sl2.thd ensures ThreadAt(m2, sl2, u) { assert ThreadAt(m1, sl1, u) && ThreadAt(m1, sl1, t); }
    AppendedIs(m2, sl2, t);
  }

  /** Its words: the new priority, and the thread's link as the last of the list for it. */
  lemma PlacedWords(m: Mem, sl: Sl, t: nat, v: nat)
    requires Represents(m, sl) && AllApart(sl) && Shaped(sl) && t in sl.thd && v < NPRIOS
    ensures var m' := Placed(m, t, v);
            && m'.prio == m.prio[t := v] && m'.state == m.state
            && Word(m'.p, Head(v)) == Of(t) && Word(m'.n, Of(t)) == Head(v)
  {
    PlacedIs(m, sl, t, v);
    var m', sl' := Placed(m, t, v), Next(sl, ParamSet(t, v));
    var s := Line(v, sl'.queues[v]);
    assert RingAt(m', sl', v) && Joined(m'.n, m'.p, s, 0) && Joined(m'.n, m'.p, s, |s| - 1);
  }

  lemma EmptyRepresents()
    ensures Represents(Mem(map[], map[], map[], map[]), Init())
  {
    forall i | 0 <= i < NPRIOS ensures RingAt(Mem(map[], map[], map[], map[]), Init(), i) {}
  }
}
