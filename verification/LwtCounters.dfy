/** What the three counters of lwt.c count, in terms of the threads and their states. */
module LwtCounters {
  import opened LwtModel

  ghost function InState(s: Lwt, state: ThreadState): set<nat> {
    set t | t in s.tcb && s.tcb[t].state == state
  }

  /** The DEAD threads that nobody joins, and those whose joiner has not come back to them yet. */
  ghost function Unjoined(s: Lwt): set<nat> {
    set t | t in s.tcb && s.tcb[t].state == Dead && s.tcb[t].joinedFrom == 0
  }

  ghost function Claimed(s: Lwt): set<nat> {
    set t | t in s.tcb && s.tcb[t].state == Dead && s.tcb[t].joinedFrom != 0
  }

  /** The threads whose join is over but for the code after its loop. */
  ghost function WokenJoiners(s: Lwt): set<nat> {
    set u | u in s.tcb && s.tcb[u].pc.InJoin? && s.tcb[u].state != Blocked
  }

  lemma {:induction false} SameSize(a: set<nat>, b: set<nat>, f: map<nat, nat>)
    requires f.Keys == a && f.Values == b
    requires forall x, y :: x in f && y in f && f[x] == f[y] ==> x == y
    ensures |a| == |b|
    decreases |a|
  {
    if x :| x in a {
      var g := f - {x};
      forall y ensures y in g.Values <==> y in b - {f[x]} {
        if y in b && y != f[x] {
          var z :| z in f && f[z] == y;
          assert g[z] == y;
        }
      }
      SameSize(a - {x}, b - {f[x]}, g);
    } else {
      assert forall y :: y !in f.Values;
    }
  }

  /** Each of these joiners has a DEAD target of its own. */
  lemma JoinersClaim(s: Lwt)
    requires Core(s)
    ensures |WokenJoiners(s)| == |Claimed(s)|
  {
    var f := map u | u in WokenJoiners(s) :: s.tcb[u].pc.target;
    forall u | u in f ensures f[u] in Claimed(s) && s.tcb[f[u]].joinedFrom == u {
      assert Linked(s, u);
    }
    forall t | t in Claimed(s) ensures t in f.Values {
      assert Linked(s, t);
      var u := s.tcb[t].joinedFrom;
      assert Linked(s, u);
      assert f[u] == t;
    }
    SameSize(WokenJoiners(s), Claimed(s), f);
  }

  lemma RingSize(s: Lwt)
    requires Shaped(s)
    ensures |s.ring| == |InState(s, Runnable)| + |InState(s, Blocked)| + |Unjoined(s)| + |Claimed(s)|
  {
    assert |s.ring| == |multiset(s.ring)| == |s.tcb.Keys|;
    Partition(s);
    UnionSize(InState(s, Runnable), InState(s, Blocked));
    UnionSize(InState(s, Runnable) + InState(s, Blocked), Unjoined(s));
    UnionSize(InState(s, Runnable) + InState(s, Blocked) + Unjoined(s), Claimed(s));
  }

  lemma Partition(s: Lwt)
    ensures s.tcb.Keys == InState(s, Runnable) + InState(s, Blocked) + Unjoined(s) + Claimed(s)
  {
  }

  lemma UnionSize(a: set<nat>, b: set<nat>)
    requires a !! b
    ensures |a + b| == |a| + |b|
  {
  }

  lemma JoinersAre(s: Lwt)
    requires Core(s)
    ensures |Joiners(s)| == |InState(s, Blocked)| + |Claimed(s)|
  {
    forall u | u in InState(s, Blocked) ensures u in Joiners(s) { assert Linked(s, u); }
    assert Joiners(s) == InState(s, Blocked) + WokenJoiners(s);
    JoinersClaim(s);
  }

  /** NTHD_RUNNABLE counts the RUNNABLE threads, the DEAD ones that nobody joins and the LWT_NOJOIN ones
      that have died; NTHD_BLOCKED the BLOCKED threads and the DEAD ones that have a joiner; NTHD_ZOMBIES
      all threads but one, and the LWT_NOJOIN ones that have died. */
  lemma CountersAre(s: Lwt, gone: nat)
    requires Inv(s, gone)
    ensures s.runnable == |InState(s, Runnable)| + |Unjoined(s)| + gone
    ensures s.blocked == |InState(s, Blocked)| + |Claimed(s)|
    ensures s.zombies + 1 == |InState(s, Runnable)| + |InState(s, Blocked)| + |InState(s, Dead)| + gone
  {
    RingSize(s);
    JoinersAre(s);
    assert InState(s, Dead) == Unjoined(s) + Claimed(s);
  }

  /** When each counter is the number that its name promises. */
  lemma CountersExactIff(s: Lwt, gone: nat)
    requires Inv(s, gone)
    ensures s.runnable == |InState(s, Runnable)| <==>
              gone == 0 && forall t :: t in InState(s, Dead) ==> s.tcb[t].joinedFrom != 0
    ensures s.blocked == |InState(s, Blocked)| <==> forall t :: t in InState(s, Dead) ==> s.tcb[t].joinedFrom == 0
    ensures s.zombies == |InState(s, Dead)| <==>
              gone == 0 && InState(s, Blocked) == {} && InState(s, Runnable) == {Cur(s)}
  {
    CountersAre(s, gone);
    forall t | t in InState(s, Dead) ensures t in Unjoined(s) <==> s.tcb[t].joinedFrom == 0 {}
    forall t | t in InState(s, Dead) ensures t in Claimed(s) <==> s.tcb[t].joinedFrom != 0 {}
    assert |Unjoined(s)| == 0 <==> forall t :: t !in Unjoined(s);
    assert |Claimed(s)| == 0 <==> forall t :: t !in Claimed(s);
    var r, c := InState(s, Runnable), Cur(s);
    assert c in r;
    assert |r| == 1 + |r - {c}|;
    assert |r - {c}| == 0 <==> r == {c};
  }
}
