/** Runs from the state `lwt_init` leaves into the states that the other results warn about. */
module LwtReached {
  import opened LwtCounters
  import opened LwtModel
  import opened LwtInvariant
  import opened LwtRuns

  // ----- runs put together -----

  ghost predicate Reaches(s: Lwt, steps: seq<Step>, s': Lwt) {
    Run(s, steps) && Exec(s, steps) == s'
  }

  ghost predicate Goes(s: Lwt, a: Step, s': Lwt) {
    Shaped(s) && Allowed(s, a) && Next(s, a) == s'
  }

  lemma ReachesHere(s: Lwt)
    requires Shaped(s)
    ensures Reaches(s, [], s)
  {
  }

  lemma ReachesFrom(s: Lwt, a: Step, s1: Lwt, rest: seq<Step>, s': Lwt)
    requires Goes(s, a, s1) && Reaches(s1, rest, s')
    ensures Reaches(s, [a] + rest, s')
  {
    assert ([a] + rest)[1..] == rest;
  }

  /** Four states in a row, and what follows them. */
  lemma ReachesInThree(s: Lwt, a: Step, s1: Lwt, b: Step, s2: Lwt, c: Step, s3: Lwt, rest: seq<Step>, s': Lwt)
    requires Goes(s, a, s1) && Goes(s1, b, s2) && Goes(s2, c, s3) && Reaches(s3, rest, s')
    ensures Reaches(s, [a, b, c] + rest, s')
  {
    hide Goes, Reaches;
    ReachesFrom(s2, c, s3, rest, s');
    ReachesFrom(s1, b, s2, [c] + rest, s');
    ReachesFrom(s, a, s1, [b] + ([c] + rest), s');
    assert [a] + ([b] + ([c] + rest)) == [a, b, c] + rest;
  }

  /** Threads 1, 3 and 4 before, and after, 3 has joined 4. */
  ghost function Three(flag: Flag, ring: seq<nat>): Lwt {
    var c := Tcb(Runnable, Joinable, 0, 0, 0, InUser);
    Lwt(ring, map[1 := c.(flag := flag), 3 := c, 4 := c], 3, 0, 2, 4)
  }

  ghost function ThreeJoined(flag: Flag, ring: seq<nat>): Lwt {
    Lwt(ring, map[1 := Tcb(Runnable, flag, 0, 0, 0, InUser), 3 := Tcb(Blocked, Joinable, 0, 4, 0, InJoin(4)),
                  4 := Tcb(Runnable, Joinable, 3, 0, 0, InUser)], 2, 1, 2, 4)
  }

  lemma CreatedThree(flag: Flag)
    ensures Inv(Three(flag, [1, 3, 4]), 0)
    ensures var s1 := CreateStep(Init(flag), Joinable);
            Goes(Init(flag), Create(Joinable), s1) && Goes(s1, Create(Joinable), Three(flag, [1, 3, 4]))
  {
    InitInv(flag);
    CreateInv(Init(flag), Joinable, 0);
    var s1 := CreateStep(Init(flag), Joinable);
    CreateInv(s1, Joinable, 0);
    assert CreateStep(s1, Joinable) == Three(flag, [1, 3, 4]);
  }

  /** A directed yield in a ring of three. */
  lemma DirectedTo(s: Lwt, i: nat)
    requires Shaped(s) && |s.ring| == 3 && 0 < i < 3 && s.tcb[s.ring[i]].state == Runnable
    ensures Direct(s, s.ring[i]) == s.(ring := Rotate(s.ring, i))
  {
    var j := IndexOf(s.ring, s.ring[i]);
    if j != i { Repeats(s.ring, if i < j then i else j, if i < j then j else i); }
  }

  lemma RotateThree(a: nat, b: nat, c: nat)
    ensures Rotate([a, b, c], 1) == [b, c, a]
  {
    assert [a, b, c][1..] == [b, c] && [a, b, c][..1] == [a];
  }

  lemma InvShaped(s: Lwt, gone: nat)
    requires Inv(s, gone)
    ensures Shaped(s)
  {
  }

  lemma ThreeToJoiner(flag: Flag)
    requires Inv(Three(flag, [1, 3, 4]), 0)
    ensures Inv(Three(flag, [3, 4, 1]), 0) && Goes(Three(flag, [1, 3, 4]), YieldTo(3), Three(flag, [3, 4, 1]))
  {
    hide Core, Counted, Shaped, Rotate;
    var s := Three(flag, [1, 3, 4]);
    InvShaped(s, 0);
    StepInv(s, YieldTo(3), 0);
    DirectedTo(s, 1);
    RotateThree(1, 3, 4);
  }

  lemma ThreeBlocked(flag: Flag)
    requires Shaped(Three(flag, [3, 4, 1])) && Shaped(LinkJoin(Three(flag, [3, 4, 1]), 4))
    requires 4 in LinkJoin(Three(flag, [3, 4, 1]), 4).tcb
    ensures var s2 := BlockCur(LinkJoin(Three(flag, [3, 4, 1]), 4), 4);
            s2.(runnable := 2, blocked := 1) == ThreeJoined(flag, [3, 4, 1])
  {
    hide Shaped;
    var s, x := Three(flag, [3, 4, 1]), ThreeJoined(flag, [3, 4, 1]);
    assert BlockCur(LinkJoin(s, 4), 4).tcb == x.tcb;
  }

  lemma ThreeJoins(flag: Flag)
    requires Inv(Three(flag, [3, 4, 1]), 0)
    ensures Inv(ThreeJoined(flag, [4, 1, 3]), 0)
    ensures Goes(Three(flag, [3, 4, 1]), Join(4), ThreeJoined(flag, [4, 1, 3]))
  {
    hide Core, Counted, Shaped, Rotate, IndexOf, LinkJoin, BlockCur, JoinStep, JoinLoop;
    var s := Three(flag, [3, 4, 1]);
    InvShaped(s, 0);
    StepInv(s, Join(4), 0);
    LinkShape(s, 4);
    ThreeBlocked(flag);
    JoinBlockShape(s, 4);
    var s2 := ThreeJoined(flag, [3, 4, 1]);
    JoinedShaped(BlockCur(LinkJoin(s, 4), 4), s2);
    DirectedTo(s2, 1);
    RotateThree(3, 4, 1);
  }

  lemma JoinedShaped(s: Lwt, s': Lwt)
    requires Shaped(s) && s'.ring == s.ring && s'.tcb == s.tcb && s'.tidCounter == s.tidCounter
    ensures Shaped(s')
  {
  }

  lemma ThreeBack(flag: Flag)
    requires Inv(ThreeJoined(flag, [4, 1, 3]), 0)
    ensures Inv(ThreeJoined(flag, [1, 3, 4]), 0)
    ensures Goes(ThreeJoined(flag, [4, 1, 3]), YieldTo(1), ThreeJoined(flag, [1, 3, 4]))
  {
    hide Core, Counted, Shaped, Rotate;
    var s := ThreeJoined(flag, [4, 1, 3]);
    InvShaped(s, 0);
    StepInv(s, YieldTo(1), 0);
    DirectedTo(s, 1);
    RotateThree(4, 1, 3);
  }

  /** The two creates, and three calls after them. */
  lemma CreatesBefore(flag: Flag, s: Lwt, a: Step, b: Step, c: Step, s': Lwt)
    requires var s1 := CreateStep(Init(flag), Joinable);
             Goes(Init(flag), Create(Joinable), s1) && Goes(s1, Create(Joinable), s)
    requires Reaches(s, [a, b, c] + [], s')
    ensures Reaches(Init(flag), [Create(Joinable), Create(Joinable), a, b, c], s')
  {
    hide *;
    var s1 := CreateStep(Init(flag), Joinable);
    ReachesFrom(s1, Create(Joinable), s, [a, b, c] + [], s');
    ReachesFrom(Init(flag), Create(Joinable), s1, [Create(Joinable)] + ([a, b, c] + []), s');
    assert [Create(Joinable)] + ([Create(Joinable)] + ([a, b, c] + []))
        == [Create(Joinable), Create(Joinable), a, b, c];
  }

  lemma SpinRun(flag: Flag)
    ensures Inv(ThreeJoined(flag, [1, 3, 4]), 0)
    ensures Reaches(Init(flag), [Create(Joinable), Create(Joinable), YieldTo(3), Join(4), YieldTo(1)],
                    ThreeJoined(flag, [1, 3, 4]))
  {
    hide *;
    CreatedThree(flag);
    ThreeToJoiner(flag);
    ThreeJoins(flag);
    ThreeBack(flag);
    InvShaped(ThreeJoined(flag, [1, 3, 4]), 0);
    var s5 := ThreeJoined(flag, [1, 3, 4]);
    ReachesHere(s5);
    ReachesInThree(Three(flag, [1, 3, 4]), YieldTo(3), Three(flag, [3, 4, 1]), Join(4),
                   ThreeJoined(flag, [4, 1, 3]), YieldTo(1), s5, [], s5);
    CreatesBefore(flag, Three(flag, [1, 3, 4]), YieldTo(3), Join(4), YieldTo(1), s5);
  }

  /** The contract is easily broken.  The initial thread creates threads 3 and 4, thread 3 joins thread 4,
      thread 4 yields back, and the initial thread joins thread 3, which is BLOCKED: it spins. */
  lemma SpinReached(flag: Flag, k: nat)
    ensures var s := ThreeJoined(flag, [1, 3, 4]);
            && Reaches(Init(flag), [Create(Joinable), Create(Joinable), YieldTo(3), Join(4), YieldTo(1)], s)
            && Shaped(s) && Cur(s) == INITIAL && s.tcb[3].joinedFrom == 0 && s.tcb[3].state == Blocked
            && var x := JoinStep(s, 3);
               && Shaped(x) && x.tcb[Cur(x)].state == Blocked && x.tcb[Cur(x)].pc == InJoin(3)
               && 3 in x.tcb && x.tcb[3].state == Blocked
               && Spin(x, k) == x.(runnable := x.runnable - k, blocked := x.blocked + k)
  {
    SpinRun(flag);
    var s := ThreeJoined(flag, [1, 3, 4]);
    JoinSwitchesIff(s, 3, 0);
    hide Reaches, Inv, Spin;
    BlockedTargetSpins(JoinStep(s, 3), k);
  }

  // ----- a counter that differs from the number of threads -----

  /** Threads 1 and 3. */
  ghost function Pair(flag: Flag, ring: seq<nat>, three: Tcb): Lwt {
    Lwt(ring, map[1 := Tcb(Runnable, flag, 0, 0, 0, InUser), 3 := three], 2, 0, 1, 3)
  }

  const FRESH := Tcb(Runnable, Joinable, 0, 0, 0, InUser)

  ghost function DeadWith(v: int): Tcb {
    Tcb(Dead, Joinable, 0, 0, v, Exited)
  }

  lemma PairCreated(flag: Flag)
    ensures Goes(Init(flag), Create(Joinable), Pair(flag, [1, 3], FRESH)) && Inv(Pair(flag, [1, 3], FRESH), 0)
  {
    InitInv(flag);
    CreateInv(Init(flag), Joinable, 0);
    assert CreateStep(Init(flag), Joinable) == Pair(flag, [1, 3], FRESH);
  }

  lemma RotatePair(a: nat, b: nat)
    ensures Rotate([a, b], 1) == [b, a]
  {
    assert [a, b][1..] == [b] && [a, b][..1] == [a];
  }

  lemma PairYields(flag: Flag)
    requires Inv(Pair(flag, [1, 3], FRESH), 0)
    ensures Goes(Pair(flag, [1, 3], FRESH), YieldTo(3), Pair(flag, [3, 1], FRESH)) && Inv(Pair(flag, [3, 1], FRESH), 0)
  {
    hide Core, Counted, Shaped, Rotate;
    var s := Pair(flag, [1, 3], FRESH);
    InvShaped(s, 0);
    StepInv(s, YieldTo(3), 0);
    assert IndexOf([1, 3], 3) == 1;
    RotatePair(1, 3);
  }

  lemma PairMarked(flag: Flag, v: int)
    requires Shaped(Pair(flag, [3, 1], FRESH))
    ensures Mark(Pair(flag, [3, 1], FRESH), v) == Pair(flag, [3, 1], DeadWith(v))
  {
    hide Shaped;
    assert Mark(Pair(flag, [3, 1], FRESH), v).tcb == Pair(flag, [3, 1], DeadWith(v)).tcb;
  }

  lemma PairDies(flag: Flag, v: int)
    requires Inv(Pair(flag, [3, 1], FRESH), 0)
    ensures Goes(Pair(flag, [3, 1], FRESH), Die(v), Pair(flag, [1, 3], DeadWith(v)))
    ensures Inv(Pair(flag, [1, 3], DeadWith(v)), 0)
  {
    hide Core, Counted, Shaped, Mark, Rotate;
    var s := Pair(flag, [3, 1], FRESH);
    InvShaped(s, 0);
    StepInv(s, Die(v), 0);
    PairMarked(flag, v);
    RotatePair(3, 1);
  }

  /** Threads 1 and 3 in the run in which 3 is created, dispatched and dies. */
  lemma PairRun(flag: Flag, v: int)
    ensures Inv(Pair(flag, [1, 3], DeadWith(v)), 0)
    ensures Reaches(Init(flag), [Create(Joinable), YieldTo(3), Die(v)], Pair(flag, [1, 3], DeadWith(v)))
  {
    hide *;
    PairCreated(flag);
    PairYields(flag);
    PairDies(flag, v);
    var s := Pair(flag, [1, 3], DeadWith(v));
    InvShaped(s, 0);
    ReachesHere(s);
    ReachesInThree(Init(flag), Create(Joinable), Pair(flag, [1, 3], FRESH), YieldTo(3), Pair(flag, [3, 1], FRESH),
                   Die(v), s, [], s);
    assert [Create(Joinable), YieldTo(3), Die(v)] + [] == [Create(Joinable), YieldTo(3), Die(v)];
  }

  ghost function ThreeWoken(flag: Flag, v: int): Lwt {
    Lwt([1, 3, 4], map[1 := Tcb(Runnable, flag, 0, 0, 0, InUser), 3 := Tcb(Runnable, Joinable, 0, 4, 0, InJoin(4)),
                       4 := Tcb(Dead, Joinable, 3, 0, v, Exited)], 2, 1, 2, 4)
  }

  lemma ThreeMarked(flag: Flag, v: int)
    requires Shaped(ThreeJoined(flag, [4, 1, 3]))
    ensures Mark(ThreeJoined(flag, [4, 1, 3]), v) == ThreeWoken(flag, v).(ring := [4, 1, 3])
  {
    hide Shaped;
    assert Mark(ThreeJoined(flag, [4, 1, 3]), v).tcb == ThreeWoken(flag, v).tcb;
  }

  lemma ScanOne(ring: seq<nat>, tcb: map<nat, Tcb>)
    requires |ring| > 1 && (forall t :: t in ring ==> t in tcb) && tcb[ring[1]].state == Runnable
    ensures Scan(ring, tcb, 1) == 1
  {
  }

  lemma ThreeWakes(flag: Flag, v: int)
    requires Inv(ThreeJoined(flag, [4, 1, 3]), 0)
    ensures Goes(ThreeJoined(flag, [4, 1, 3]), Die(v), ThreeWoken(flag, v)) && Inv(ThreeWoken(flag, v), 0)
  {
    hide Core, Counted, Shaped, Mark, Rotate, Scan;
    var s := ThreeJoined(flag, [4, 1, 3]);
    InvShaped(s, 0);
    StepInv(s, Die(v), 0);
    ThreeMarked(flag, v);
    ScanOne([4, 1, 3], ThreeWoken(flag, v).tcb);
    RotateThree(4, 1, 3);
  }

  lemma WokenRun(flag: Flag, v: int)
    ensures Inv(ThreeWoken(flag, v), 0)
    ensures Reaches(Init(flag), [Create(Joinable), Create(Joinable), YieldTo(3), Join(4), Die(v)], ThreeWoken(flag, v))
  {
    hide *;
    CreatedThree(flag);
    ThreeToJoiner(flag);
    ThreeJoins(flag);
    ThreeWakes(flag, v);
    var s5 := ThreeWoken(flag, v);
    InvShaped(s5, 0);
    ReachesHere(s5);
    ReachesInThree(Three(flag, [1, 3, 4]), YieldTo(3), Three(flag, [3, 4, 1]), Join(4),
                   ThreeJoined(flag, [4, 1, 3]), Die(v), s5, [], s5);
    CreatesBefore(flag, Three(flag, [1, 3, 4]), YieldTo(3), Join(4), Die(v), s5);
  }

  /** None of the counters is what its name promises: a thread that has died unjoined is counted as
      RUNNABLE, one just created as a zombie, and a joiner that has been woken as BLOCKED. */
  lemma CountersDiffer(flag: Flag, v: int)
    ensures var s := Pair(flag, [1, 3], DeadWith(v));
            && Reaches(Init(flag), [Create(Joinable), YieldTo(3), Die(v)], s)
            && s.runnable == 2 && InState(s, Runnable) == {INITIAL}
    ensures var s := Pair(flag, [1, 3], FRESH);
            Reaches(Init(flag), [Create(Joinable)], s) && s.zombies == 1 && InState(s, Dead) == {}
    ensures var s := ThreeWoken(flag, v);
            && Reaches(Init(flag), [Create(Joinable), Create(Joinable), YieldTo(3), Join(4), Die(v)], s)
            && s.blocked == 1 && InState(s, Blocked) == {}
  {
    PairRun(flag, v);
    WokenRun(flag, v);
    PairCreated(flag);
    hide Reaches, Goes, Core, Counted, Shaped;
    InvShaped(Pair(flag, [1, 3], FRESH), 0);
    ReachesHere(Pair(flag, [1, 3], FRESH));
    ReachesFrom(Init(flag), Create(Joinable), Pair(flag, [1, 3], FRESH), [], Pair(flag, [1, 3], FRESH));
    assert [Create(Joinable)] + [] == [Create(Joinable)];
  }

  // ----- a control block used again -----

  /** Thread 1 after it has joined thread 3, with the threads that it has created since. */
  ghost function Joined(flag: Flag, more: nat): Lwt
    requires more <= 2
  {
    var one := Tcb(Runnable, flag, 0, 3, 0, InUser);
    if more == 0 then Lwt([1], map[1 := one], 1, 0, 0, 3)
    else if more == 1 then Lwt([1, 4], map[1 := one, 4 := FRESH], 2, 0, 1, 4)
    else Lwt([1, 4, 5], map[1 := one, 4 := FRESH, 5 := FRESH], 3, 0, 2, 5)
  }

  /** And after it has joined thread 5, which is alive. */
  ghost function Rejoined(flag: Flag, ring: seq<nat>): Lwt {
    Lwt(ring, map[1 := Tcb(Blocked, flag, 0, 5, 0, InJoin(5)), 4 := FRESH, 5 := FRESH.(joinedFrom := 1)], 2, 1, 2, 5)
  }

  lemma PairReaped(flag: Flag, v: int)
    requires Shaped(Pair(flag, [1, 3], DeadWith(v))) && Shaped(LinkJoin(Pair(flag, [1, 3], DeadWith(v)), 3))
    requires 3 in LinkJoin(Pair(flag, [1, 3], DeadWith(v)), 3).tcb
    requires Shaped(LinkJoin(Pair(flag, [1, 3], DeadWith(v)), 3).(zombies := 0, runnable := 1))
    ensures Reap(LinkJoin(Pair(flag, [1, 3], DeadWith(v)), 3).(zombies := 0, runnable := 1), 3) == Joined(flag, 0)
  {
    hide Shaped;
    var s := Reap(LinkJoin(Pair(flag, [1, 3], DeadWith(v)), 3).(zombies := 0, runnable := 1), 3);
    assert IndexOf([1, 3], 3) == 1;
    assert s.ring == [1];
    assert s.tcb == Joined(flag, 0).tcb;
  }

  lemma PairJoins(flag: Flag, v: int)
    requires Inv(Pair(flag, [1, 3], DeadWith(v)), 0)
    ensures Goes(Pair(flag, [1, 3], DeadWith(v)), Join(3), Joined(flag, 0)) && Inv(Joined(flag, 0), 0)
  {
    hide Core, Counted, Shaped, LinkJoin, Reap, JoinStep;
    var s := Pair(flag, [1, 3], DeadWith(v));
    InvShaped(s, 0);
    StepInv(s, Join(3), 0);
    LinkShape(s, 3);
    JoinedShaped(LinkJoin(s, 3), LinkJoin(s, 3).(zombies := 0, runnable := 1));
    PairReaped(flag, v);
    JoinDeadShape(s, 3);
  }

  lemma JoinedCreates(flag: Flag)
    requires Inv(Joined(flag, 0), 0)
    ensures Goes(Joined(flag, 0), Create(Joinable), Joined(flag, 1)) && Inv(Joined(flag, 2), 0)
    ensures Goes(Joined(flag, 1), Create(Joinable), Joined(flag, 2))
  {
    CreateInv(Joined(flag, 0), Joinable, 0);
    assert CreateStep(Joined(flag, 0), Joinable) == Joined(flag, 1);
    CreateInv(Joined(flag, 1), Joinable, 0);
    assert CreateStep(Joined(flag, 1), Joinable) == Joined(flag, 2);
  }

  lemma RejoinBlocked(flag: Flag)
    requires Shaped(Joined(flag, 2)) && Shaped(LinkJoin(Joined(flag, 2), 5))
    requires 5 in LinkJoin(Joined(flag, 2), 5).tcb
    ensures BlockCur(LinkJoin(Joined(flag, 2), 5), 5).(runnable := 2, blocked := 1) == Rejoined(flag, [1, 4, 5])
  {
    hide Shaped;
    assert BlockCur(LinkJoin(Joined(flag, 2), 5), 5).tcb == Rejoined(flag, [1, 4, 5]).tcb;
  }

  lemma JoinedRejoins(flag: Flag)
    requires Inv(Joined(flag, 2), 0)
    ensures Goes(Joined(flag, 2), Join(5), Rejoined(flag, [5, 1, 4])) && Inv(Rejoined(flag, [5, 1, 4]), 0)
  {
    hide Core, Counted, Shaped, Rotate, IndexOf, LinkJoin, BlockCur, JoinStep, JoinLoop;
    var s := Joined(flag, 2);
    InvShaped(s, 0);
    StepInv(s, Join(5), 0);
    LinkShape(s, 5);
    RejoinBlocked(flag);
    JoinBlockShape(s, 5);
    JoinedShaped(BlockCur(LinkJoin(s, 5), 5), Rejoined(flag, [1, 4, 5]));
    DirectedTo(Rejoined(flag, [1, 4, 5]), 2);
    assert Rotate([1, 4, 5], 2) == [5, 1, 4] by { TwoOfThree(1, 4, 5); }
  }

  lemma TwoOfThree(a: nat, b: nat, c: nat)
    ensures Rotate([a, b, c], 2) == [c, a, b]
  {
    assert [a, b, c][2..] == [c] && [a, b, c][..2] == [a, b];
  }

  lemma RejoinedYields(flag: Flag)
    requires Inv(Rejoined(flag, [5, 1, 4]), 0)
    ensures Goes(Rejoined(flag, [5, 1, 4]), YieldTo(4), Rejoined(flag, [4, 5, 1])) && Inv(Rejoined(flag, [4, 5, 1]), 0)
  {
    hide Core, Counted, Shaped, Rotate;
    var s := Rejoined(flag, [5, 1, 4]);
    InvShaped(s, 0);
    StepInv(s, YieldTo(4), 0);
    DirectedTo(s, 2);
    TwoOfThree(5, 1, 4);
  }

  lemma RejoinRun(flag: Flag, v: int)
    ensures Inv(Rejoined(flag, [4, 5, 1]), 0)
    ensures Reaches(Init(flag), [Create(Joinable), YieldTo(3), Die(v), Join(3), Create(Joinable), Create(Joinable),
                                 Join(5), YieldTo(4)], Rejoined(flag, [4, 5, 1]))
  {
    hide *;
    PairCreated(flag);
    PairYields(flag);
    PairDies(flag, v);
    PairJoins(flag, v);
    JoinedCreates(flag);
    JoinedRejoins(flag);
    RejoinedYields(flag);
    var s3, s6, s8 := Pair(flag, [1, 3], DeadWith(v)), Joined(flag, 2), Rejoined(flag, [4, 5, 1]);
    InvShaped(s8, 0);
    ReachesHere(s8);
    ReachesFrom(Rejoined(flag, [5, 1, 4]), YieldTo(4), s8, [], s8);
    ReachesFrom(s6, Join(5), Rejoined(flag, [5, 1, 4]), [YieldTo(4)] + [], s8);
    var last := [Join(5)] + ([YieldTo(4)] + []);
    ReachesInThree(s3, Join(3), Joined(flag, 0), Create(Joinable), Joined(flag, 1), Create(Joinable), s6, last, s8);
    var rest := [Join(3), Create(Joinable), Create(Joinable)] + last;
    ReachesInThree(Init(flag), Create(Joinable), Pair(flag, [1, 3], FRESH), YieldTo(3), Pair(flag, [3, 1], FRESH),
                   Die(v), s3, rest, s8);
    assert [Create(Joinable), YieldTo(3), Die(v)] + rest
        == [Create(Joinable), YieldTo(3), Die(v), Join(3), Create(Joinable), Create(Joinable), Join(5), YieldTo(4)];
  }

  /** A join returns before its target has died.  Thread 1 joins thread 3, which is DEAD: 3's block names
      thread 1 when it is freed.  Thread 4 is created in that block; thread 1 joins thread 5 and is BLOCKED;
      thread 4 dies, unjoined, and wakes thread 1, while thread 5 is alive. */
  lemma StaleJoinerReached(flag: Flag, v: int, value: int)
    ensures var s := Pair(flag, [1, 3], DeadWith(v));
            && Reaches(Init(flag), [Create(Joinable), YieldTo(3), Die(v)], s) && Shaped(s)
            && LinkJoin(s, 3).tcb[3].joinedFrom == 1
    ensures var s := Rejoined(flag, [4, 5, 1]);
            && Reaches(Init(flag), [Create(Joinable), YieldTo(3), Die(v), Join(3), Create(Joinable), Create(Joinable),
                                    Join(5), YieldTo(4)], s)
            && Shaped(s) && Cur(s) == 4 && s.tcb[4].joinedFrom == 0 && s.tcb[1].state == Blocked
            && var stale := Set(s, 4, s.tcb[4].(joinedFrom := 1));
               Shaped(stale) && ReturnsEarly(Mark(stale, value), 1)
  {
    PairRun(flag, v);
    RejoinRun(flag, v);
    var s := Rejoined(flag, [4, 5, 1]);
    InvShaped(s, 0);
    assert Cur(s) == 4;
    hide Inv, Reaches, Mark;
    StaleJoinerWakes(s, 1, value, 0);
  }
}
