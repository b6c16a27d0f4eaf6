/** Every step of the scheduler keeps the invariant, and no scheduling scan runs past one lap. */
module LwtInvariant {
  import opened Options
  import opened LwtModel

  // ----- join chains end -----

  /** The `joiningTo` chain of a thread: every thread but the last is BLOCKED, the links are mirrored by
      `joinedFrom`, no thread repeats, and the last one is RUNNABLE. */
  ghost predicate Chain(s: Lwt, p: seq<nat>) {
    && |p| > 0
    && (forall i :: 0 <= i < |p| ==> p[i] in s.tcb && p[i] in s.ring)
    && (forall i, j :: 0 <= i < j < |p| ==> p[i] != p[j])
    && (forall i :: 0 <= i < |p| - 1 ==>
          && s.tcb[p[i]].state == Blocked
          && s.tcb[p[i]].joiningTo == p[i + 1]
          && s.tcb[p[i + 1]].joinedFrom == p[i])
    && s.tcb[p[|p| - 1]].state == Runnable
    && (|p| > 1 ==> s.tcb[p[|p| - 1]].flag == Joinable)
  }

  lemma {:induction false} RankedChain(s: Lwt, rank: map<nat, nat>, u: nat) returns (p: seq<nat>)
    requires Core(s) && Ranked(s, rank) && u in s.tcb && s.tcb[u].state != Dead
    ensures Chain(s, p) && p[0] == u
    ensures forall i :: 0 < i < |p| ==> rank[p[i]] < rank[u]
    decreases rank[u]
  {
    assert Linked(s, u) && Below(s, rank, u);
    if s.tcb[u].state == Runnable {
      p := [u];
    } else {
      var t := s.tcb[u].joiningTo;
      var q := RankedChain(s, rank, t);
      p := [u] + q;
    }
  }

  /** From any thread that is not DEAD the chain exists: it has no cycle and reaches a RUNNABLE thread. */
  lemma ChainEnds(s: Lwt, u: nat) returns (p: seq<nat>)
    requires Core(s) && u in s.tcb && s.tcb[u].state != Dead
    ensures Chain(s, p) && p[0] == u
  {
    var rank :| Ranked(s, rank);
    p := RankedChain(s, rank, u);
  }

  /** The initial thread's chain: some RUNNABLE thread is initial or joinable. */
  lemma SomeRunnable(s: Lwt) returns (e: nat)
    requires Core(s)
    ensures e in s.ring && s.tcb[e].state == Runnable
    ensures e == INITIAL || s.tcb[e].flag == Joinable
  {
    assert Linked(s, INITIAL);
    var p := ChainEnds(s, INITIAL);
    e := p[|p| - 1];
  }

  /** The scan has no bound in the code.  It ends within one lap, at a RUNNABLE thread. */
  lemma ScanEnds(s: Lwt)
    requires Core(s)
    ensures var k := Scan(s.ring, s.tcb, 1); s.tcb[Rotate(s.ring, k)[0]].state == Runnable
  {
    var e := SomeRunnable(s);
    var i := IndexOf(s.ring, e);
    var k := Scan(s.ring, s.tcb, 1);
    if k == |s.ring| {
      assert i == 0;
      assert Rotate(s.ring, k) == s.ring;
    }
  }

  /** A dying LWT_NOJOIN thread is still marked RUNNABLE while it scans, and never picks itself. */
  lemma NoJoinPicksAnother(s: Lwt)
    requires Core(s) && s.tcb[Cur(s)].flag == NoJoin && Cur(s) != INITIAL
    ensures Scan(s.ring, s.tcb, 1) < |s.ring|
  {
    var e := SomeRunnable(s);
    var i := IndexOf(s.ring, e);
    assert i >= 1;
  }

  // ----- rings -----

  lemma RotateShape(ring: seq<nat>, k: nat)
    requires k <= |ring|
    ensures |Rotate(ring, k)| == |ring| && multiset(Rotate(ring, k)) == multiset(ring)
    ensures forall t :: t in Rotate(ring, k) <==> t in ring
    ensures k < |ring| ==> Rotate(ring, k)[0] == ring[k]
    ensures k == |ring| ==> Rotate(ring, k) == ring
  {
    assert ring == ring[..k] + ring[k..];
  }

  lemma InRing(s: Lwt, t: nat)
    requires Shaped(s) && t in s.tcb
    ensures t in s.ring
  {
  }

  lemma SkipTid(s: Lwt)
    requires Shaped(s)
    ensures Shaped(s.(tidCounter := s.tidCounter + 1)) && s.tidCounter + 1 !in s.tcb
  {
  }

  lemma SameKeys(s: Lwt, t: nat, c: Tcb)
    requires Shaped(s) && t in s.tcb
    ensures Shaped(Set(s, t, c)) && Cur(Set(s, t, c)) == Cur(s)
  {
    assert Set(s, t, c).tcb.Keys == s.tcb.Keys;
  }

  lemma ShapedRotated(s: Lwt, k: nat)
    requires Shaped(s) && k <= |s.ring|
    ensures Shaped(s.(ring := Rotate(s.ring, k)))
  {
    RotateShape(s.ring, k);
  }

  lemma Repeats(ring: seq<nat>, i: nat, j: nat)
    requires i < j < |ring| && ring[i] == ring[j]
    ensures multiset(ring)[ring[j]] >= 2
  {
    assert ring == ring[..j] + ring[j..];
    assert ring[..j][i] == ring[j] && ring[j..][0] == ring[j];
  }

  lemma WithoutShape(ring: seq<nat>, t: nat)
    requires t in ring && multiset(ring)[t] == 1
    ensures |Without(ring, t)| == |ring| - 1 && multiset(Without(ring, t)) == multiset(ring) - multiset{t}
    ensures forall u :: u in Without(ring, t) <==> u in ring && u != t
    ensures ring[0] != t ==> Without(ring, t)[0] == ring[0]
  {
    var i := IndexOf(ring, t);
    assert ring == ring[..i] + [t] + ring[i + 1..];
    forall u ensures u in Without(ring, t) <==> u in ring && u != t {
      assert u in Without(ring, t) <==> u in multiset(Without(ring, t));
      assert u in ring <==> u in multiset(ring);
    }
  }

  /** A step that adds no edge to the join graph keeps it acyclic. */
  lemma NoNewEdge(s: Lwt, s': Lwt)
    requires exists rank :: Ranked(s, rank)
    requires s'.tcb.Keys <= s.tcb.Keys
    requires forall t :: t in s'.tcb.Keys && s'.tcb[t].state == Blocked ==>
               s.tcb[t].state == Blocked && s.tcb[t].joiningTo == s'.tcb[t].joiningTo
    ensures exists rank :: Ranked(s', rank)
  {
    var rank :| Ranked(s, rank);
    forall t | t in s'.tcb ensures Below(s', rank, t) { assert Below(s, rank, t); }
    assert Ranked(s', rank);
  }

  lemma RotateCore(s: Lwt, k: nat)
    requires Core(s) && k <= |s.ring|
    ensures Core(s.(ring := Rotate(s.ring, k)))
    ensures Joiners(s.(ring := Rotate(s.ring, k))) == Joiners(s)
  {
    RotateShape(s.ring, k);
    var s' := s.(ring := Rotate(s.ring, k));
    NoNewEdge(s, s');
    forall u | u in s'.tcb ensures Linked(s', u) { assert Linked(s, u); }
  }

  lemma ScheduleInv(s: Lwt, gone: nat)
    requires Core(s) && Counted(s, gone)
    requires !s.tcb[Cur(s)].pc.InJoin?
    ensures s.runnable >= 1
    ensures Schedule(s) == s.(ring := Rotate(s.ring, Scan(s.ring, s.tcb, 1)))
    ensures Inv(Schedule(s), gone)
  {
    JoinersFit(s.ring[1..], Joiners(s));
    ScanEnds(s);
    RotateCore(s, Scan(s.ring, s.tcb, 1));
  }

  /** A set of threads that all occur in a sequence is no larger than the sequence. */
  lemma {:induction false} JoinersFit(ring: seq<nat>, js: set<nat>)
    requires forall u :: u in js ==> u in ring
    ensures |js| <= |ring|
  {
    if |ring| > 0 {
      JoinersFit(ring[1..], js - {ring[0]});
    }
  }

  lemma DirectInv(s: Lwt, t: nat, gone: nat)
    requires Core(s) && Counted(s, gone) && t in s.tcb && s.tcb[t].state == Runnable
    ensures Inv(Direct(s, t), gone) && Cur(Direct(s, t)) == t
  {
    var i := IndexOf(s.ring, t);
    RotateShape(s.ring, i);
    RotateCore(s, i);
  }

  // ----- create -----

  lemma CreateLinked(s: Lwt, flag: Flag, u: nat)
    requires Core(s) && u in CreateStep(s, flag).tcb
    ensures Linked(CreateStep(s, flag), u)
  {
    if u in s.tcb { assert Linked(s, u); }
  }

  lemma CreateRanked(s: Lwt, flag: Flag)
    requires Core(s)
    ensures exists rank :: Ranked(CreateStep(s, flag), rank)
  {
    var s' := CreateStep(s, flag);
    var rank :| Ranked(s, rank);
    var rank' := rank[s.tidCounter + 1 := 0];
    forall u | u in s'.tcb ensures Below(s', rank', u) {
      if u in s.tcb { assert Below(s, rank, u) && Linked(s, u); }
    }
    assert Ranked(s', rank');
  }

  lemma CreateShape(s: Lwt, flag: Flag)
    requires Shaped(s)
    ensures Shaped(CreateStep(s, flag)) && Joiners(CreateStep(s, flag)) == Joiners(s)
  {
    var s' := CreateStep(s, flag);
    var t := s.tidCounter + 1;
    assert t !in s.tcb;
    assert s'.tcb.Keys == s.tcb.Keys + {t};
  }

  lemma CreateInv(s: Lwt, flag: Flag, gone: nat)
    requires Inv(s, gone)
    ensures Inv(CreateStep(s, flag), gone)
  {
    var s' := CreateStep(s, flag);
    CreateShape(s, flag);
    forall u | u in s'.tcb ensures Linked(s', u) { CreateLinked(s, flag, u); }
    CreateRanked(s, flag);
  }

  // ----- join -----

  /** A thread can be reaped when it is DEAD and every other thread's links hold without it. */
  ghost predicate Reapable(s: Lwt, t: nat) {
    && Shaped(s)
    && t in s.tcb && t != Cur(s) && t != INITIAL && s.tcb[t].pc == Exited
    && (forall u {:trigger Linked(s, u)} :: u in s.tcb && u != t ==>
          Linked(s, u) && s.tcb[u].pc != InJoin(t))
    && (exists rank :: Ranked(s, rank))
  }

  lemma ReapShape(s: Lwt, t: nat)
    requires Shaped(s) && t in s.tcb && t != Cur(s) && t != INITIAL
    ensures Shaped(Reap(s, t)) && Cur(Reap(s, t)) == Cur(s)
    ensures |Reap(s, t).ring| == |s.ring| - 1 && Reap(s, t).tcb.Keys == s.tcb.Keys - {t}
  {
    WithoutShape(s.ring, t);
    assert Reap(s, t).tcb.Keys == s.tcb.Keys - {t};
  }

  lemma ReapLinked(s: Lwt, t: nat, u: nat)
    requires Reapable(s, t) && u in s.tcb && u != t
    ensures Linked(Reap(s, t), u)
  {
    assert Linked(s, u);
  }

  lemma ReapCore(s: Lwt, t: nat)
    requires Reapable(s, t)
    ensures Core(Reap(s, t)) && Cur(Reap(s, t)) == Cur(s)
    ensures Joiners(Reap(s, t)) == Joiners(s)
    ensures |Reap(s, t).ring| == |s.ring| - 1
  {
    var s' := Reap(s, t);
    ReapShape(s, t);
    NoNewEdge(s, s');
    forall u | u in s'.tcb ensures Linked(s', u) { ReapLinked(s, t, u); }
    assert Joiners(s') == Joiners(s);
  }

  lemma LinkShape(s: Lwt, t: nat)
    requires Shaped(s) && t in s.tcb
    ensures Shaped(LinkJoin(s, t)) && LinkJoin(s, t).tcb.Keys == s.tcb.Keys && Cur(LinkJoin(s, t)) == Cur(s)
    ensures Joiners(LinkJoin(s, t)) == Joiners(s)
  {
    assert LinkJoin(s, t).tcb.Keys == s.tcb.Keys;
  }

  lemma LinkFields(s: Lwt, t: nat)
    requires Shaped(s) && t in s.tcb
    ensures LinkJoin(s, t).tcb[t].ret == s.tcb[t].ret
    ensures LinkJoin(s, t).runnable == s.runnable && LinkJoin(s, t).zombies == s.zombies
  {
  }

  lemma LinkDeadReapable(s: Lwt, t: nat, gone: nat)
    requires Inv(s, gone) && Allowed(s, Join(t))
    requires s.tcb[t].flag == Joinable && s.tcb[t].state == Dead
    ensures Reapable(LinkJoin(s, t), t)
  {
    var s1 := LinkJoin(s, t);
    LinkShape(s, t);
    assert Linked(s, t) && Linked(s, Cur(s));
    NoNewEdge(s, s1);
    forall u | u in s1.tcb && u != t ensures Linked(s1, u) && s1.tcb[u].pc != InJoin(t) {
      assert Linked(s, u);
    }
  }

  /** The counters play no part in `Reapable` or in reaping. */
  lemma CountersFree(s: Lwt, s': Lwt, t: nat)
    requires s'.ring == s.ring && s'.tcb == s.tcb && s'.tidCounter == s.tidCounter
    requires Reapable(s, t)
    ensures Reapable(s', t)
  {
    forall u | u in s'.tcb && u != t ensures Linked(s', u) && s'.tcb[u].pc != InJoin(t) {
      assert Linked(s, u);
    }
    NoNewEdge(s, s');
  }

  lemma JoinDeadShape(s: Lwt, t: nat)
    requires Shaped(s) && t in s.tcb && s.tcb[t].flag == Joinable && s.tcb[t].state == Dead && t != Cur(s)
    ensures Shaped(LinkJoin(s, t))
    ensures JoinStep(s, t) == Reap(LinkJoin(s, t).(zombies := s.zombies - 1, runnable := s.runnable - 1), t)
  {
    LinkShape(s, t);
  }

  lemma JoinBlockShape(s: Lwt, t: nat)
    requires Shaped(s) && t in s.tcb && s.tcb[t].flag == Joinable && s.tcb[t].state == Runnable && t != Cur(s)
    ensures Shaped(LinkJoin(s, t)) && Shaped(BlockCur(LinkJoin(s, t), t)) && t in BlockCur(LinkJoin(s, t), t).tcb
    ensures var s2 := BlockCur(LinkJoin(s, t), t);
            JoinStep(s, t) == Direct(s2.(runnable := s.runnable - 1, blocked := s.blocked + 1), t)
  {
    LinkShape(s, t);
    assert BlockCur(LinkJoin(s, t), t).tcb.Keys == s.tcb.Keys;
  }

  /** The three ways a join can go. */
  lemma JoinCases(s: Lwt, t: nat, gone: nat)
    requires Inv(s, gone) && Allowed(s, Join(t))
    ensures s.tcb[t].flag == NoJoin ==> JoinStep(s, t) == s
    ensures s.tcb[t].flag == Joinable && s.tcb[t].state == Dead ==>
              && t != Cur(s) && t != INITIAL && Shaped(LinkJoin(s, t))
              && JoinStep(s, t) == Reap(LinkJoin(s, t).(zombies := s.zombies - 1, runnable := s.runnable - 1), t)
    ensures s.tcb[t].flag == Joinable && s.tcb[t].state != Dead ==>
              && t != Cur(s) && s.tcb[t].state == Runnable
              && Shaped(LinkJoin(s, t)) && Shaped(BlockCur(LinkJoin(s, t), t))
              && t in BlockCur(LinkJoin(s, t), t).tcb && JoinStep(s, t) == JoinLoop(BlockCur(LinkJoin(s, t), t))
  {
    LinkShape(s, t);
    assert Linked(s, t);
    if s.tcb[t].flag == Joinable {
      assert BlockCur(LinkJoin(s, t), t).tcb.Keys == s.tcb.Keys;
    }
  }

  lemma JoinDeadInv(s: Lwt, t: nat, gone: nat)
    requires Inv(s, gone) && Allowed(s, Join(t))
    requires s.tcb[t].flag == Joinable && s.tcb[t].state == Dead
    ensures Inv(JoinStep(s, t), gone)
  {
    var s1 := LinkJoin(s, t);
    LinkShape(s, t);
    LinkDeadReapable(s, t, gone);
    var s2 := s1.(zombies := s.zombies - 1, runnable := s.runnable - 1);
    CountersFree(s1, s2, t);
    ReapCore(s2, t);
    assert Joiners(s2) == Joiners(s1);
    JoinDeadShape(s, t);
    assert Counted(Reap(s2, t), gone);
    assert Reap(s2, t).tcb[Cur(s)].state == Runnable;
  }

  lemma BlockRanked(s: Lwt, t: nat)
    requires Core(s) && Allowed(s, Join(t)) && s.tcb[t].flag == Joinable && s.tcb[t].state == Runnable
    ensures exists rank :: Ranked(BlockCur(LinkJoin(s, t), t), rank)
  {
    var s2 := BlockCur(LinkJoin(s, t), t);
    var rank :| Ranked(s, rank);
    var rank2 := map u | u in s.tcb :: if u == t then 0 else rank[u] + 1;
    assert s2.tcb.Keys == s.tcb.Keys;
    forall u | u in s2.tcb ensures Below(s2, rank2, u) {
      assert Linked(s, u) && Below(s, rank, u);
    }
    assert Ranked(s2, rank2);
  }

  lemma BlockLinked(s: Lwt, t: nat, u: nat)
    requires Core(s) && Allowed(s, Join(t)) && s.tcb[Cur(s)].state == Runnable
    requires s.tcb[t].flag == Joinable && s.tcb[t].state == Runnable && u in s.tcb
    ensures u in BlockCur(LinkJoin(s, t), t).tcb && Linked(BlockCur(LinkJoin(s, t), t), u)
  {
    assert Linked(s, u) && Linked(s, t) && Linked(s, Cur(s));
  }

  /** The state in which a blocking join enters its loop for the first time. */
  lemma BlockCore(s: Lwt, t: nat)
    requires Core(s) && Allowed(s, Join(t)) && s.tcb[Cur(s)].state == Runnable
    requires s.tcb[t].flag == Joinable && s.tcb[t].state == Runnable
    ensures Core(BlockCur(LinkJoin(s, t), t)) && BlockCur(LinkJoin(s, t), t).tcb.Keys == s.tcb.Keys
    ensures Joiners(BlockCur(LinkJoin(s, t), t)) == Joiners(s) + {Cur(s)} && Cur(s) !in Joiners(s)
  {
    LinkShape(s, t);
    var s2 := BlockCur(LinkJoin(s, t), t);
    assert s2.tcb.Keys == s.tcb.Keys;
    BlockRanked(s, t);
    forall u | u in s2.tcb ensures Linked(s2, u) { BlockLinked(s, t, u); }
  }

  lemma CountersFreeCore(s: Lwt, s': Lwt)
    requires s'.ring == s.ring && s'.tcb == s.tcb && s'.tidCounter == s.tidCounter
    requires Core(s)
    ensures Core(s') && Joiners(s') == Joiners(s)
  {
    forall u | u in s'.tcb ensures Linked(s', u) { assert Linked(s, u); }
    NoNewEdge(s, s');
  }

  lemma JoinBlockInv(s: Lwt, t: nat, gone: nat)
    requires Inv(s, gone) && Allowed(s, Join(t))
    requires s.tcb[t].flag == Joinable && s.tcb[t].state == Runnable
    ensures Inv(JoinStep(s, t), gone)
    ensures Cur(JoinStep(s, t)) == t
  {
    BlockCore(s, t);
    var s2 := BlockCur(LinkJoin(s, t), t);
    var s3 := s2.(runnable := s.runnable - 1, blocked := s.blocked + 1);
    CountersFreeCore(s2, s3);
    assert Counted(s3, gone);
    DirectInv(s3, t, gone);
    JoinBlockShape(s, t);
  }

  lemma ResumeReapable(s: Lwt, gone: nat)
    requires Inv(s, gone) && s.tcb[Cur(s)].pc.InJoin?
    ensures s.tcb[Cur(s)].pc.target in s.tcb
    ensures Reapable(Set(s, Cur(s), s.tcb[Cur(s)].(pc := InUser)), s.tcb[Cur(s)].pc.target)
  {
    var me := Cur(s);
    var t := s.tcb[me].pc.target;
    assert Linked(s, me) && Linked(s, t);
    var s1 := Set(s, me, s.tcb[me].(pc := InUser));
    assert s1.tcb.Keys == s.tcb.Keys;
    NoNewEdge(s, s1);
    forall u | u in s1.tcb && u != t ensures Linked(s1, u) && s1.tcb[u].pc != InJoin(t) {
      assert Linked(s, u);
    }
  }

  lemma ResumeInv(s: Lwt, gone: nat)
    requires Inv(s, gone) && s.tcb[Cur(s)].pc.InJoin?
    ensures s.tcb[Cur(s)].pc.target in s.tcb
    ensures Inv(JoinLoop(s), gone)
  {
    var me := Cur(s);
    ResumeReapable(s, gone);
    var t := s.tcb[me].pc.target;
    var s1 := Set(s, me, s.tcb[me].(pc := InUser));
    var s2 := s1.(blocked := s.blocked - 1, zombies := s.zombies - 1);
    CountersFree(s1, s2, t);
    ReapCore(s2, t);
    assert s1.tcb.Keys == s.tcb.Keys;
    assert Joiners(s2) == Joiners(s) - {me} && me in Joiners(s);
    assert Counted(Reap(s2, t), gone);
    assert Reap(s2, t).tcb[me].state == Runnable;
    assert JoinLoop(s) == Reap(s2, t);
  }

  // ----- die -----

  lemma MarkLinked(s: Lwt, v: int, u: nat)
    requires Core(s) && Allowed(s, Die(v)) && s.tcb[Cur(s)].state == Runnable
    requires s.tcb[Cur(s)].flag == Joinable && u in s.tcb
    ensures u in Mark(s, v).tcb && Linked(Mark(s, v), u)
  {
    var me := Cur(s);
    var j := s.tcb[me].joinedFrom;
    assert Linked(s, u) && Linked(s, me);
    if j != 0 { assert Linked(s, j); }
  }

  lemma MarkCore(s: Lwt, v: int, gone: nat)
    requires Inv(s, gone) && Allowed(s, Die(v)) && s.tcb[Cur(s)].flag == Joinable
    ensures Core(Mark(s, v)) && Counted(Mark(s, v), gone)
    ensures Cur(Mark(s, v)) == Cur(s) && Mark(s, v).tcb[Cur(s)].pc == Exited
  {
    var me := Cur(s);
    var s' := Mark(s, v);
    assert Linked(s, me);
    assert s'.tcb.Keys == s.tcb.Keys;
    NoNewEdge(s, s');
    forall u | u in s'.tcb ensures Linked(s', u) { MarkLinked(s, v, u); }
    assert Joiners(s') == Joiners(s);
  }

  lemma LeaveLinked(s: Lwt, u: nat)
    requires Core(s) && s.tcb[Cur(s)].flag == NoJoin && Cur(s) != INITIAL
    requires !s.tcb[Cur(s)].pc.InJoin? && u in s.tcb && u != Cur(s)
    ensures u in Leave(s).tcb && Linked(Leave(s), u)
  {
    assert Linked(s, u) && Linked(s, Cur(s));
  }

  lemma LeaveShape(s: Lwt)
    requires Core(s) && s.tcb[Cur(s)].flag == NoJoin && Cur(s) != INITIAL
    ensures Shaped(Leave(s)) && |Leave(s).ring| == |s.ring| - 1
    ensures Cur(Leave(s)) != Cur(s) && Leave(s).tcb[Cur(Leave(s))].state == Runnable
  {
    var k := Scan(s.ring, s.tcb, 1);
    NoJoinPicksAnother(s);
    ShapedRotated(s, k);
    HeadElsewhere(s, k);
    ReapShape(s.(ring := Rotate(s.ring, k)), Cur(s));
  }

  lemma LeaveTcb(s: Lwt)
    requires Shaped(s) && !s.tcb[Cur(s)].pc.InJoin?
    ensures var s' := Leave(s);
            && s'.tcb == s.tcb - {Cur(s)} && s'.tcb.Keys == s.tcb.Keys - {Cur(s)} && Joiners(s') == Joiners(s)
            && s'.runnable == s.runnable && s'.blocked == s.blocked && s'.zombies == s.zombies
  {
    var s' := Leave(s);
    assert s'.tcb.Keys == s.tcb.Keys - {Cur(s)};
  }

  lemma LeaveInv(s: Lwt, gone: nat)
    requires Inv(s, gone) && s.tcb[Cur(s)].flag == NoJoin && Cur(s) != INITIAL
    requires !s.tcb[Cur(s)].pc.InJoin?
    ensures Inv(Leave(s), gone + 1)
  {
    LeaveTcb(s);
    LeaveShape(s);
    hide Leave, Shaped, Linked, Joiners, Below;
    var s' := Leave(s);
    NoNewEdge(s, s');
    forall u | u in s'.tcb ensures Linked(s', u) { LeaveLinked(s, u); }
  }

  lemma HeadElsewhere(s: Lwt, k: nat)
    requires Shaped(s) && 0 < k < |s.ring|
    ensures s.ring[k] != Cur(s)
  {
    if s.ring[k] == Cur(s) { Repeats(s.ring, 0, k); }
  }

  // ----- what the operations on the heap use of the invariant -----

  lemma ResumeFacts(s: Lwt, gone: nat)
    requires Inv(s, gone) && s.tcb[Cur(s)].pc.InJoin?
    ensures var t := s.tcb[Cur(s)].pc.target; t in s.tcb && t != Cur(s) && t != INITIAL
  {
    assert Linked(s, Cur(s)) && Linked(s, s.tcb[Cur(s)].pc.target);
  }

  lemma MarkIs(s: Lwt, v: int)
    requires Shaped(s)
    ensures var s1 := Set(s, Cur(s), s.tcb[Cur(s)].(state := Dead, ret := v, pc := Exited));
            var j := s.tcb[Cur(s)].joinedFrom;
            && (j == 0 ==> Mark(s, v) == s1)
            && (j in s.tcb ==> Mark(s, v) == Set(s1, j, s1.tcb[j].(state := Runnable)))
  {
  }

  lemma DieFacts(s: Lwt, v: int, gone: nat)
    requires Inv(s, gone) && Allowed(s, Die(v))
    ensures Linked(s, Cur(s))
    ensures s.tcb[Cur(s)].flag == Joinable ==>
              Core(Mark(s, v)) && Counted(Mark(s, v), gone) && Cur(Mark(s, v)) == Cur(s)
              && Mark(s, v).tcb[Cur(s)].pc == Exited
  {
    assert Linked(s, Cur(s));
    if s.tcb[Cur(s)].flag == Joinable { MarkCore(s, v, gone); }
  }

  // ----- all steps, all runs -----

  /** Whether this step is a LWT_NOJOIN thread's death. */
  ghost predicate Leaves(s: Lwt, a: Step)
    requires Shaped(s)
  {
    a.Die? && s.tcb[Cur(s)].flag == NoJoin
  }

  lemma StepInv(s: Lwt, a: Step, gone: nat)
    requires Inv(s, gone) && Allowed(s, a)
    ensures Shaped(Next(s, a)) && Inv(Next(s, a), if Leaves(s, a) then gone + 1 else gone)
  {
    match a
    case Create(flag) => CreateInv(s, flag, gone);
    case Yield => ScheduleInv(s, gone);
    case YieldTo(t) => if s.tcb[t].state == Runnable { DirectInv(s, t, gone); }
    case Join(t) =>
      if s.tcb[t].flag == Joinable {
        if s.tcb[t].state == Dead { JoinDeadInv(s, t, gone); } else { JoinBlockInv(s, t, gone); }
      }
    case Resume => ResumeInv(s, gone);
    case Die(v) =>
      if s.tcb[Cur(s)].flag == NoJoin {
        LeaveInv(s, gone);
      } else {
        MarkCore(s, v, gone);
        ScheduleInv(Mark(s, v), gone);
      }
  }

  lemma InitInv(flag: Flag)
    ensures Inv(Init(flag), 0)
  {
    var s := Init(flag);
    assert s.ring[0] == INITIAL;
    assert s.tcb.Keys == {INITIAL};
    assert Ranked(s, map[INITIAL := 0]);
    assert Joiners(s) == {};
  }

}
