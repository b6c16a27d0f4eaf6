/** What each call does to the rings, the threads and the channels when threads travel between kernel
    threads. */
module MigrationMoves {
  import M = LwtModel
  import L = LwtInvariant
  import E = LwtEffects
  import opened Migration

  /** Nothing has changed but that the ring of the current thread is read from the next RUNNABLE one on. */
  ghost predicate MovesOn(w: World, w': World) {
    && w.here in w.rings && w'.here in w'.rings
    && w' == w.(rings := w.rings[w.here := w'.rings[w'.here]]) && w'.here == w.here
    && exists k: nat :: E.OnTo(w.rings[w.here], w.tcb, k, w'.rings[w.here])
  }

  /** The scan of a ring with a RUNNABLE thread in it. */
  lemma ScanMovesOn(w: World)
    requires Shaped(w) && exists t :: t in w.rings[w.here] && t in w.tcb && w.tcb[t].state == M.Runnable
    ensures MovesOn(w, Yielded(w))
  {
    assert Known(w.rings, w.tcb.Keys, w.here);
    var ring := w.rings[w.here];
    ScanStopsIff(ring, w.tcb);
    var k := M.Scan(ring, w.tcb, 1);
    assert E.OnTo(ring, w.tcb, k, Yielded(w).rings[w.here]);
  }

  lemma CurrentHelps(w: World)
    requires Inv(w)
    ensures Shaped(w) && Current(w) in w.rings[w.here] && w.tcb[Current(w)].state == M.Runnable
    ensures Current(w) in w.kid && w.kid[Current(w)] == w.here
  {
    CurrentIs(w);
  }

  /** `lwt_yield(LWT_NULL)` moves on to the next RUNNABLE thread of the current thread's own ring. */
  lemma Reschedules(w: World)
    requires Inv(w) && Allowed(w, Reschedule)
    ensures MovesOn(w, Next(w, Reschedule))
  {
    CurrentHelps(w);
    ScanMovesOn(w);
  }

  /** Thread t is the current one, in its own ring, and that is all that has changed. */
  ghost predicate Dispatches(w: World, t: nat, w': World) {
    && t in w.kid && w.kid[t] in w.rings && w'.here == w.kid[t]
    && w' == w.(here := w'.here, rings := w'.rings) && w'.rings.Keys == w.rings.Keys
    && (forall k :: k in w.rings && k != w.kid[t] ==> w'.rings[k] == w.rings[k])
    && var ring, ring' := w.rings[w.kid[t]], w'.rings[w.kid[t]];
       |ring'| > 0 && ring'[0] == t && exists i: nat :: i < |ring| && ring' == ring[i..] + ring[..i]
  }

  lemma RotatedTo(w: World, k: nat, t: nat)
    requires k in w.rings && t in w.rings[k] && t in w.kid && w.kid[t] == k
    ensures Dispatches(w, t, At(w, k, M.IndexOf(w.rings[k], t)))
  {
    var ring, i := w.rings[k], M.IndexOf(w.rings[k], t);
    L.RotateShape(ring, i);
    assert At(w, k, i).rings[k] == ring[i..] + ring[..i];
  }

  /** `lwt_yield(t)` goes to t, in whatever ring it is, if t is RUNNABLE, and does nothing otherwise. */
  lemma GoesTo(w: World, t: nat)
    requires Inv(w) && Allowed(w, Directed(t))
    ensures if w.tcb[t].state == M.Runnable then Dispatches(w, t, Next(w, Directed(t))) else Next(w, Directed(t)) == w
  {
    if w.tcb[t].state == M.Runnable { RotatedTo(w, w.kid[t], t); }
  }

  /** The loop of a kernel thread hands over to another one's own thread. */
  lemma HandsOver(w: World, k: nat)
    requires Inv(w) && Allowed(w, Switch(k))
    ensures Dispatches(w, w.own[k], Next(w, Switch(k)))
  {
    assert AtHome(w.rings, w.kid, w.tcb, w.own, k);
    RotatedTo(w, k, w.own[k]);
  }

  /** A new thread is RUNNABLE, has the flag asked for, and is just behind its creator, in the same kernel
      thread. */
  lemma Creates(w: World, t: nat, flag: M.Flag)
    requires Inv(w) && Allowed(w, New(t, flag))
    ensures var w' := Next(w, New(t, flag));
            && t !in w.tcb && w'.tcb == w.tcb[t := M.Tcb(M.Runnable, flag, 0, 0, 0, M.InUser)]
            && w'.kid == w.kid[t := w.here] && w'.rings == w.rings[w.here := w.rings[w.here] + [t]]
            && w'.here == w.here && w'.chans == w.chans && w'.sending == w.sending && w'.own == w.own
  {
    CurrentHelps(w);
  }

  /** The buffer of channel ch has one more thread at its end. */
  ghost predicate Enters(w: World, ch: nat, t: nat, w': World) {
    && ch in w.chans && |w.chans[ch].flight| < w.chans[ch].capacity
    && w'.chans == w.chans[ch := w.chans[ch].(flight := w.chans[ch].flight + [t])]
  }

  /** `lwt_snd_thd` of another thread leaves it BLOCKED.  It enters the buffer if the channel is open and has
      room; the sender waits, and the next RUNNABLE thread goes on, if the channel is open and full; and
      that is all if the channel has been given up. */
  lemma Sends(w: World, ch: nat, t: nat)
    requires Inv(w) && Allowed(w, SndThd(ch, t)) && t != Current(w)
    ensures var w', b, c := Next(w, SndThd(ch, t)), w.(tcb := w.tcb[t := w.tcb[t].(state := M.Blocked)]), w.chans[ch];
            && (!c.open ==> w' == b)
            && (c.open && |c.flight| < c.capacity ==> Enters(b, ch, t, w') && w' == b.(chans := w'.chans))
            && (c.open && |c.flight| >= c.capacity ==> MovesOn(b.(sending := w.sending[Current(w) := Parcel(ch, t)]), w'))
  {
    CurrentHelps(w);
    var b := w.(tcb := w.tcb[t := w.tcb[t].(state := M.Blocked)]);
    if w.chans[ch].open && |w.chans[ch].flight| >= w.chans[ch].capacity {
      assert b.tcb.Keys == w.tcb.Keys && b.tcb[Current(w)] == w.tcb[Current(w)];
      assert Known(w.rings, w.tcb.Keys, w.here);
      ScanMovesOn(b.(sending := w.sending[Current(w) := Parcel(ch, t)]));
    }
  }

  lemma SendsSelf(w: World, ch: nat)
    requires Inv(w) && Allowed(w, SndThd(ch, Current(w)))
    ensures Next(w, SndThd(ch, Current(w))) == w
  {
  }

  /** A send that waited is over as soon as it finds room, and waits on otherwise. */
  lemma Retries(w: World)
    requires Inv(w) && Allowed(w, RetrySnd)
    ensures var w', c, p := Next(w, RetrySnd), Current(w), w.sending[Current(w)];
            if |w.chans[p.ch].flight| < w.chans[p.ch].capacity then
              && Enters(w, p.ch, p.t, w') && w' == w.(chans := w'.chans, sending := w.sending - {c})
              && c !in w'.sending && Shaped(w') && Current(w') == c
            else
              MovesOn(w, w')
  {
    CurrentHelps(w);
    ScanMovesOn(w);
  }

  /** A receive from an empty channel waits. */
  lemma ReceivesNothing(w: World, ch: nat)
    requires Inv(w) && Allowed(w, RcvThd(ch)) && w.chans[ch].flight == []
    ensures MovesOn(w, Next(w, RcvThd(ch)))
  {
    CurrentHelps(w);
    ScanMovesOn(w);
  }

  /** Thread t is in no ring and has no control block any more; the others are as they were. */
  ghost predicate Removes(w: World, t: nat, w': World) {
    && t !in w'.tcb && w'.tcb == w.tcb - {t} && w'.kid == w.kid - {t} && w'.rings.Keys == w.rings.Keys
    && forall k :: k in w.rings ==>
         if t in w.rings[k] then exists i: nat :: E.TakenOut(w.rings[k], t, i, w'.rings[k])
         else w'.rings[k] == w.rings[k]
  }

  lemma ReapedRemoves(w: World, t: nat)
    ensures Removes(w, t, Reaped(w, t))
    ensures Reaped(w, t) == w.(rings := Reaped(w, t).rings, tcb := w.tcb - {t}, kid := w.kid - {t})
  {
    forall k | k in w.rings && t in w.rings[k]
      ensures exists i: nat :: E.TakenOut(w.rings[k], t, i, Reaped(w, t).rings[k])
    {
      assert E.TakenOut(w.rings[k], t, M.IndexOf(w.rings[k], t), Reaped(w, t).rings[k]);
    }
  }

  /** A join of a LWT_NOJOIN thread returns at once; of a DEAD one, removes it; of a live one, leaves the
      caller BLOCKED in the join, and the target goes on. */
  lemma JoinsNothing(w: World, t: nat)
    requires Inv(w) && Allowed(w, JoinThd(t)) && w.tcb[t].flag == M.NoJoin
    ensures Next(w, JoinThd(t)) == w
  {
  }

  lemma JoinsDead(w: World, t: nat)
    requires Inv(w) && Allowed(w, JoinThd(t)) && w.tcb[t].flag == M.Joinable && w.tcb[t].state == M.Dead
    ensures Removes(w, t, Next(w, JoinThd(t))) && Next(w, JoinThd(t)).here == w.here
  {
    ReapedRemoves(w, t);
  }

  lemma JoinsLive(w: World, t: nat)
    requires Inv(w) && Allowed(w, JoinThd(t)) && w.tcb[t].flag == M.Joinable && w.tcb[t].state != M.Dead
    ensures var c := Current(w);
            var waiting := w.tcb[c := w.tcb[c].(joiningTo := t, state := M.Blocked, pc := M.InJoin(t))]
                                [t := w.tcb[t].(joinedFrom := c)];
            c != t && Dispatches(w.(tcb := waiting), t, Next(w, JoinThd(t)))
  {
    CurrentHelps(w);
    assert LinkOk(w.tcb, t);
    RotatedTo(Linked(w, t), w.kid[t], t);
  }

  /** A join that continues removes its target, which is DEAD, and its caller is back in its own code. */
  lemma ReturnsFromJoin(w: World)
    requires Inv(w) && Allowed(w, ResumeJoin)
    ensures var c, w' := Current(w), Next(w, ResumeJoin);
            && var t := w.tcb[c].pc.target;
               && t in w.tcb && w.tcb[t].state == M.Dead
               && Removes(w.(tcb := w.tcb[c := w.tcb[c].(pc := M.InUser)]), t, w') && w'.here == w.here
  {
    CurrentHelps(w);
    var c := Current(w);
    assert LinkOk(w.tcb, c);
    ReapedRemoves(w.(tcb := w.tcb[c := w.tcb[c].(pc := M.InUser)]), w.tcb[c].pc.target);
  }

  /** A joinable thread that dies is DEAD, its joiner RUNNABLE, and the next RUNNABLE thread of its ring goes
      on. */
  lemma Dies(w: World)
    requires Inv(w) && Allowed(w, DieThd) && w.tcb[Current(w)].flag == M.Joinable
    ensures var c, j := Current(w), w.tcb[Current(w)].joinedFrom;
            var dead := w.tcb[c := w.tcb[c].(state := M.Dead, pc := M.Exited)];
            && (j != 0 ==> j in w.tcb && j != c)
            && MovesOn(w.(tcb := if j == 0 then dead else dead[j := w.tcb[j].(state := M.Runnable)]), Next(w, DieThd))
  {
    CurrentHelps(w);
    var c, j := Current(w), w.tcb[Current(w)].joinedFrom;
    assert LinkOk(w.tcb, c);
    if j in w.tcb { assert LinkOk(w.tcb, j); }
    ScanMovesOn(Marked(w));
  }

  /** Of a LWT_NOJOIN thread that dies nothing is left, and the next RUNNABLE thread of its ring goes on. */
  lemma Vanishes(w: World)
    requires Inv(w) && Allowed(w, DieThd) && w.tcb[Current(w)].flag == M.NoJoin
    ensures var c, w', ring := Current(w), Next(w, DieThd), w.rings[w.here];
            && c !in w'.tcb && w'.tcb == w.tcb - {c} && w'.kid == w.kid - {c} && w'.here == w.here
            && exists k: nat :: 1 <= k < |ring| && E.OnTo(ring, w.tcb, k, ring[k..] + ring[..k])
                                && w'.rings == w.rings[w.here := ring[k..] + ring[1..k]]
  {
    CurrentHelps(w);
    var c, ring := Current(w), w.rings[w.here];
    InOneRing(w.rings, w.kid, w.tcb.Keys, c, w.here);
    ScanMovesOn(w);
    var k := M.Scan(ring, w.tcb, 1);
    DyingScanIff(w);
    L.RotateShape(ring, k);
    assert k < |ring|;
    E.WithoutHead(ring, k);
    assert E.OnTo(ring, w.tcb, k, ring[k..] + ring[..k]);
  }
}
