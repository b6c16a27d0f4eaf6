/** Runs of two threads, from the start of one kernel thread without a loop, into the states that the other
    results warn about. */
module MigrationReached {
  import M = LwtModel
  import opened Migration

  const FRESH := M.Tcb(M.Runnable, M.Joinable, 0, 0, 0, M.InUser)
  const SENT := M.Tcb(M.Blocked, M.Joinable, 0, 0, 0, M.InUser)

  ghost function First(): World {
    Start(map[0 := 1], {}, 0)
  }

  /** Threads 1 and 2 with these control blocks and channels. */
  ghost function Two(ring: seq<nat>, one: M.Tcb, two: M.Tcb, chans: map<nat, Chan>): World {
    World(map[0 := ring], map[1 := one, 2 := two], map[1 := 0, 2 := 0], map[], 0, chans, map[])
  }

  ghost predicate Goes(w: World, a: Move, w': World) {
    Shaped(w) && Allowed(w, a) && Next(w, a) == w'
  }

  ghost predicate Reaches(w: World, moves: seq<Move>, w': World) {
    Run(w, moves) && Exec(w, moves) == w'
  }

  lemma ReachesHere(w: World)
    requires Shaped(w)
    ensures Reaches(w, [], w)
  {
  }

  lemma ReachesFrom(w: World, a: Move, w1: World, rest: seq<Move>, w': World)
    requires Goes(w, a, w1) && Reaches(w1, rest, w')
    ensures Reaches(w, [a] + rest, w')
  {
    hide Shaped, Allowed, Next;
    assert ([a] + rest)[1..] == rest;
  }

  lemma InvShaped(w: World)
    requires Inv(w)
    ensures Shaped(w)
  {
  }

  lemma FirstInv()
    ensures Inv(First())
    ensures First() == World(map[0 := [1]], map[1 := FRESH], map[1 := 0], map[], 0, map[], map[])
  {
    var first: map<nat, nat> := map[0 := 1];
    StartInv(first, {}, 0);
    assert first.Values == {1};
    var w := First();
    assert w.rings == map[0 := [1]];
    assert w.tcb == map[1 := FRESH];
    assert w.kid == map[1 := 0];
    assert w.own == map[];
  }

  lemma SecondCreated()
    ensures var w := Two([1, 2], FRESH, FRESH, map[]); Goes(First(), New(2, M.Joinable), w) && Inv(w)
  {
    FirstInv();
    hide Inv;
    InvShaped(First());
    StepInv(First(), New(2, M.Joinable));
    var w, w' := Two([1, 2], FRESH, FRESH, map[]), Next(First(), New(2, M.Joinable));
    assert [1] + [2] == [1, 2];
    assert w'.rings == w.rings;
    assert w'.tcb == w.tcb;
    assert w'.kid == w.kid;
  }

  lemma ChannelMade(chans: map<nat, Chan>, ch: nat)
    requires Inv(Two([1, 2], FRESH, FRESH, chans)) && ch !in chans
    ensures var w := Two([1, 2], FRESH, FRESH, chans[ch := Chan(1, true, [])]);
            Goes(Two([1, 2], FRESH, FRESH, chans), NewChan(ch, 1), w) && Inv(w)
  {
    var w := Two([1, 2], FRESH, FRESH, chans);
    InvShaped(w);
    hide Inv;
    StepInv(w, NewChan(ch, 1));
  }

  /** Channel 0, given up or not, and channel 1. */
  ghost function TwoChannels(open: bool): map<nat, Chan> {
    map[0 := Chan(1, open, []), 1 := Chan(1, true, [])]
  }

  lemma ChannelGivenUp()
    requires Inv(Two([1, 2], FRESH, FRESH, TwoChannels(true)))
    ensures var w := Two([1, 2], FRESH, FRESH, TwoChannels(false));
            Goes(Two([1, 2], FRESH, FRESH, TwoChannels(true)), GiveUp(0), w) && Inv(w)
  {
    var w := Two([1, 2], FRESH, FRESH, TwoChannels(true));
    InvShaped(w);
    hide Inv;
    StepInv(w, GiveUp(0));
    assert Next(w, GiveUp(0)).chans == TwoChannels(false);
  }

  lemma GivenUpRun()
    ensures var w := Two([1, 2], FRESH, FRESH, TwoChannels(false));
            Reaches(First(), [New(2, M.Joinable), NewChan(0, 1), NewChan(1, 1), GiveUp(0)], w) && Inv(w)
  {
    var w1, w4 := Two([1, 2], FRESH, FRESH, map[]), Two([1, 2], FRESH, FRESH, TwoChannels(false));
    var w2 := Two([1, 2], FRESH, FRESH, map[0 := Chan(1, true, [])]);
    var w3 := Two([1, 2], FRESH, FRESH, TwoChannels(true));
    hide Inv, Reaches, Goes;
    SecondCreated();
    ChannelMade(map[], 0);
    ChannelMade(map[0 := Chan(1, true, [])], 1);
    ChannelGivenUp();
    InvShaped(w4);
    ReachesHere(w4);
    ReachesFrom(w3, GiveUp(0), w4, [], w4);
    ReachesFrom(w2, NewChan(1, 1), w3, [GiveUp(0)] + [], w4);
    ReachesFrom(w1, NewChan(0, 1), w2, [NewChan(1, 1)] + ([GiveUp(0)] + []), w4);
    ReachesFrom(First(), New(2, M.Joinable), w1, [NewChan(0, 1)] + ([NewChan(1, 1)] + ([GiveUp(0)] + [])), w4);
    assert [New(2, M.Joinable)] + ([NewChan(0, 1)] + ([NewChan(1, 1)] + ([GiveUp(0)] + [])))
        == [New(2, M.Joinable), NewChan(0, 1), NewChan(1, 1), GiveUp(0)];
  }

  lemma SecondSent()
    requires Inv(Two([1, 2], FRESH, FRESH, TwoChannels(false)))
    ensures var w, ch := Two([1, 2], FRESH, FRESH, TwoChannels(false)), Chan(1, true, []);
            && Goes(w, SndThd(0, 2), Two([1, 2], FRESH, SENT, TwoChannels(false)))
            && Shaped(w) && Allowed(w, SndThd(0, 2)) && Current(w) == 1
            && 0 in w.chans && !w.chans[0].open && 1 in w.chans && w.chans[1] == ch
  {
    var w := Two([1, 2], FRESH, FRESH, TwoChannels(false));
    InvShaped(w);
    hide Inv;
    assert Next(w, SndThd(0, 2)) == Two([1, 2], FRESH, SENT, TwoChannels(false));
  }

  /** A thread is stranded, and rescued: thread 1 creates thread 2 and two channels, gives one of them up
      and sends thread 2 on it.  Sent on the other and received, thread 2 can run again. */
  lemma StrandedReached()
    ensures var w := Two([1, 2], FRESH, FRESH, TwoChannels(false));
            && Reaches(First(), [New(2, M.Joinable), NewChan(0, 1), NewChan(1, 1), GiveUp(0)], w)
            && Goes(w, SndThd(0, 2), Two([1, 2], FRESH, SENT, TwoChannels(false)))
            && Stranded(Two([1, 2], FRESH, SENT, TwoChannels(false)), 2)
            && Run(w, [SndThd(0, 2), SndThd(1, 2), RcvThd(1)])
            && var w' := Exec(w, [SndThd(0, 2), SndThd(1, 2), RcvThd(1)]);
               2 in w'.tcb && w'.tcb[2].state == M.Runnable
  {
    var w := Two([1, 2], FRESH, FRESH, TwoChannels(false));
    GivenUpRun();
    SecondSent();
    hide *;
    FailedSendRetried(w, 2, 0, 1);
  }

  ghost function OneChannel(flight: seq<nat>): map<nat, Chan> {
    map[0 := Chan(1, true, flight)]
  }

  lemma SecondRuns()
    requires Inv(Two([1, 2], FRESH, FRESH, OneChannel([])))
    ensures var w := Two([2, 1], FRESH, FRESH, OneChannel([]));
            Goes(Two([1, 2], FRESH, FRESH, OneChannel([])), Directed(2), w) && Inv(w)
  {
    var w := Two([1, 2], FRESH, FRESH, OneChannel([]));
    InvShaped(w);
    hide Inv;
    StepInv(w, Directed(2));
    assert M.IndexOf([1, 2], 2) == 1 && M.Rotate([1, 2], 1) == [2, 1];
  }

  lemma FirstSent()
    requires Inv(Two([2, 1], FRESH, FRESH, OneChannel([])))
    ensures var w := Two([2, 1], SENT, FRESH, OneChannel([1]));
            Goes(Two([2, 1], FRESH, FRESH, OneChannel([])), SndThd(0, 1), w) && Inv(w)
  {
    var w := Two([2, 1], FRESH, FRESH, OneChannel([]));
    InvShaped(w);
    hide Inv;
    StepInv(w, SndThd(0, 1));
    assert Next(w, SndThd(0, 1)).tcb == Two([2, 1], SENT, FRESH, OneChannel([1])).tcb;
    var none: seq<nat> := [];
    assert none + [1] == [1];
    assert Next(w, SndThd(0, 1)) == Pushed(w.(tcb := w.tcb[1 := SENT]), 0, 1);
  }

  lemma SentAwayRun()
    ensures var w := Two([2, 1], SENT, FRESH, OneChannel([1]));
            Reaches(First(), [New(2, M.Joinable), NewChan(0, 1), Directed(2), SndThd(0, 1)], w) && Inv(w)
  {
    var w1, w2 := Two([1, 2], FRESH, FRESH, map[]), Two([1, 2], FRESH, FRESH, OneChannel([]));
    var w3, w4 := Two([2, 1], FRESH, FRESH, OneChannel([])), Two([2, 1], SENT, FRESH, OneChannel([1]));
    hide Inv, Reaches, Goes;
    SecondCreated();
    ChannelMade(map[], 0);
    SecondRuns();
    FirstSent();
    InvShaped(w4);
    ReachesHere(w4);
    ReachesFrom(w3, SndThd(0, 1), w4, [], w4);
    ReachesFrom(w2, Directed(2), w3, [SndThd(0, 1)] + [], w4);
    ReachesFrom(w1, NewChan(0, 1), w2, [Directed(2)] + ([SndThd(0, 1)] + []), w4);
    ReachesFrom(First(), New(2, M.Joinable), w1, [NewChan(0, 1)] + ([Directed(2)] + ([SndThd(0, 1)] + [])), w4);
    assert [New(2, M.Joinable)] + ([NewChan(0, 1)] + ([Directed(2)] + ([SndThd(0, 1)] + [])))
        == [New(2, M.Joinable), NewChan(0, 1), Directed(2), SndThd(0, 1)];
  }

  /** A scan that never ends: thread 2 has sent thread 1 away and is about to die.  Once it is DEAD, its
      ring holds nobody who is RUNNABLE. */
  lemma EndlessScanReached()
    ensures var w := Two([2, 1], SENT, FRESH, OneChannel([1]));
            && Reaches(First(), [New(2, M.Joinable), NewChan(0, 1), Directed(2), SndThd(0, 1)], w)
            && Shaped(w) && Current(w) == 2 && 2 !in w.sending && !Own(w.own, 2)
            && !AnotherRunnable(w.rings[w.here], Marked(w).tcb, 2)
            && forall t :: t in w.rings[w.here] ==> t in Marked(w).tcb && Marked(w).tcb[t].state != M.Runnable
  {
    SentAwayRun();
    InvShaped(Two([2, 1], SENT, FRESH, OneChannel([1])));
    hide Inv, Reaches;
  }
}
