/** Threads that move between kernel threads (scheddev/channel.c with scheddev/lwt.c).

    Every kernel thread has a run ring of its own, written as in LwtModel from its current thread on, and
    threads create, yield, join and die as there.  A thread travels through a channel and, when it is
    received, changes rings.  A step ends where another thread can be dispatched: a send to a full channel
    and a receive from an empty one end with the yield in their loops.
  */
module Migration {
  import opened Options
  import opened LwtModel
  import opened LwtInvariant
  import opened PsList

  /** A channel that carries threads: how many its buffer holds, whether its receiver still has it, and
      what is in the buffer, oldest first. */
  datatype Chan = Chan(capacity: nat, open: bool, flight: seq<nat>)

  /** A send that waits in its loop. */
  datatype Parcel = Parcel(ch: nat, t: nat)

  /** `here` is the kernel thread in whose ring the current thread is, `kid` each thread's record of its
      kernel thread, `own` the thread that runs the loop of a kernel thread made by `lwt_kthd_create`, and
      `sending` the waiting sends by sender. */
  datatype World = World(rings: map<nat, seq<nat>>, tcb: map<nat, Tcb>, kid: map<nat, nat>,
                         own: map<nat, nat>, here: nat, chans: map<nat, Chan>, sending: map<nat, Parcel>)

  datatype Move =
    | New(t: nat, flag: Flag)
    | Reschedule
    | Directed(t: nat)
    // the loop of a kernel thread hands over to kernel thread k, which continues with its own thread
    | Switch(k: nat)
    | NewChan(ch: nat, capacity: nat)
    // the receiver drops the channel
    | GiveUp(ch: nat)
    | SndThd(ch: nat, t: nat)
    // a waiting send is dispatched and looks at the buffer again
    | RetrySnd
    | RcvThd(ch: nat)
    | JoinThd(t: nat)
    | ResumeJoin
    | DieThd

  ghost predicate Own(own: map<nat, nat>, t: nat) {
    exists k :: k in own && own[k] == t
  }

  // ----- the code -----

  /** There is a current thread, and the rings hold known threads. */
  ghost predicate Shaped(w: World) {
    && w.here in w.rings && |w.rings[w.here]| > 0
    && AllKnown(w.rings, w.tcb.Keys) && w.kid.Keys == w.tcb.Keys
  }

  ghost predicate Known(rings: map<nat, seq<nat>>, tids: set<nat>, k: nat)
    requires k in rings
  {
    forall t :: t in rings[k] ==> t in tids
  }

  ghost predicate AllKnown(rings: map<nat, seq<nat>>, tids: set<nat>) {
    forall k {:trigger Known(rings, tids, k)} :: k in rings ==> Known(rings, tids, k)
  }

  ghost function Current(w: World): (c: nat)
    requires Shaped(w)
    ensures c in w.tcb
  {
    assert Known(w.rings, w.tcb.Keys, w.here);
    w.rings[w.here][0]
  }

  /** `ps_list_rem_d(t)`: t leaves the ring it is in. */
  ghost function Unlinked(rings: map<nat, seq<nat>>, t: nat): (r: map<nat, seq<nat>>)
    ensures r.Keys == rings.Keys
  {
    map k | k in rings :: if t in rings[k] then LwtModel.Without(rings[k], t) else rings[k]
  }

  /** Ring k is read from position i on, where the current thread is. */
  ghost function At(w: World, k: nat, i: nat): World
    requires k in w.rings && i <= |w.rings[k]|
  {
    w.(rings := w.rings[k := Rotate(w.rings[k], i)], here := k)
  }

  /** `lwt_yield(LWT_NULL)`: the scan stays in the ring of the current thread. */
  ghost function Yielded(w: World): World
    requires Shaped(w)
  {
    assert Known(w.rings, w.tcb.Keys, w.here);
    At(w, w.here, Scan(w.rings[w.here], w.tcb, 1))
  }

  /** `lwt_yield(t)`, wherever t is. */
  ghost function Dispatched(w: World, t: nat): World
    requires t in w.tcb && t in w.kid && w.kid[t] in w.rings && t in w.rings[w.kid[t]]
  {
    if w.tcb[t].state == Runnable then At(w, w.kid[t], IndexOf(w.rings[w.kid[t]], t)) else w
  }

  /** A joined thread is unlinked and freed. */
  ghost function Reaped(w: World, t: nat): World {
    w.(rings := Unlinked(w.rings, t), tcb := w.tcb - {t}, kid := w.kid - {t})
  }

  /** The sender's thread is in the buffer. */
  ghost function Pushed(w: World, ch: nat, t: nat): World
    requires ch in w.chans
  {
    w.(chans := w.chans[ch := w.chans[ch].(flight := w.chans[ch].flight + [t])])
  }

  ghost predicate Full(c: Chan) {
    |c.flight| >= c.capacity
  }

  /** Thread t has been sent and not yet received: it is in a buffer, or in the hands of a waiting sender. */
  datatype Place = In(ch: nat) | By(sender: nat)

  ghost predicate Carried(chans: map<nat, Chan>, sending: map<nat, Parcel>, t: nat, p: Place) {
    match p
    case In(ch) => ch in chans && t in chans[ch].flight
    case By(u) => u in sending && sending[u].t == t
  }

  ghost predicate OnItsWay(w: World, t: nat) {
    exists p :: Carried(w.chans, w.sending, t, p)
  }

  /** What the code demands.  A thread that waits in a call goes on with that call.  The thread of a kernel
      thread's loop does not join, die or travel.  Joins are as in LwtModel; here a target may be BLOCKED
      because it has been sent, too, and is not joined then either.  A thread that is sent is not DEAD, not
      inside a join, and not already on its way.  A receiver does not drop a channel while a send
      waits for it, and does not receive from a channel it has dropped. */
  ghost predicate Allowed(w: World, a: Move)
    requires Shaped(w)
  {
    var c := Current(w);
    && (a.RetrySnd? <==> c in w.sending)
    && (a.ResumeJoin? <==> c !in w.sending && w.tcb[c].pc.InJoin?)
    && match a
       case New(t, _) => t !in w.tcb && t > 0
       case Reschedule => true
       case Directed(t) => t in w.tcb && w.kid[t] in w.rings && t in w.rings[w.kid[t]]
       case Switch(k) => Own(w.own, c) && k in w.rings && k in w.own && w.own[k] in w.rings[k]
       case NewChan(ch, capacity) => ch !in w.chans && capacity > 0
       case GiveUp(ch) => ch in w.chans && forall u :: u in w.sending ==> w.sending[u].ch != ch
       case SndThd(ch, t) =>
         && ch in w.chans && t in w.tcb && w.tcb[t].state != Dead && w.tcb[t].pc == InUser
         && !Own(w.own, t) && !OnItsWay(w, t)
       case RetrySnd => c in w.sending && w.sending[c].ch in w.chans
       case RcvThd(ch) => ch in w.chans && w.chans[ch].open
       case JoinThd(t) =>
         && t in w.tcb && w.kid[t] in w.rings && t in w.rings[w.kid[t]]
         && (w.tcb[t].flag == Joinable ==>
               && !Own(w.own, c) && t != c && w.tcb[t].joinedFrom == 0 && w.tcb[t].state != Blocked)
       case ResumeJoin => w.tcb[c].pc.InJoin? && w.tcb[c].pc.target in w.tcb
       case DieThd => !Own(w.own, c) && AnotherRunnable(w.rings[w.here], Marked(w).tcb, c)
  }

  /** What lets the scan of a dying thread c end: another thread of its ring is RUNNABLE, which may be its
      joiner. */
  ghost predicate AnotherRunnable(ring: seq<nat>, tcb: map<nat, Tcb>, c: nat) {
    exists t :: t in ring && t != c && t in tcb && tcb[t].state == Runnable
  }

  /** `lwt_die` of a joinable thread before its yield. */
  ghost function Marked(w: World): (r: World)
    requires Shaped(w)
    ensures Shaped(r) && r == w.(tcb := r.tcb) && r.tcb.Keys == w.tcb.Keys
  {
    var c := Current(w);
    var tcb := w.tcb[c := w.tcb[c].(state := Dead, pc := Exited)];
    var j := tcb[c].joinedFrom;
    assert tcb.Keys == w.tcb.Keys && (j in tcb ==> tcb[j := tcb[j].(state := Runnable)].Keys == w.tcb.Keys);
    w.(tcb := if j in tcb then tcb[j := tcb[j].(state := Runnable)] else tcb)
  }

  /** `lwt_die` of a LWT_NOJOIN thread: scan first, then unlink. */
  ghost function Left(w: World): World
    requires Shaped(w)
  {
    var c, r := Current(w), Yielded(w).rings[w.here];
    w.(rings := w.rings[w.here := if c in r then Without(r, c) else r], tcb := w.tcb - {c}, kid := w.kid - {c})
  }

  /** The joiner is BLOCKED and linked with its target. */
  ghost function Linked(w: World, t: nat): (r: World)
    requires Shaped(w) && t in w.tcb
    ensures r == w.(tcb := r.tcb) && r.tcb.Keys == w.tcb.Keys
  {
    var c := Current(w);
    var tcb := w.tcb[c := w.tcb[c].(joiningTo := t, state := Blocked, pc := InJoin(t))];
    w.(tcb := tcb[t := tcb[t].(joinedFrom := c)])
  }

  ghost function Next(w: World, a: Move): World
    requires Shaped(w) && Allowed(w, a)
  {
    var c, ring := Current(w), w.rings[w.here];
    match a
    case New(t, flag) =>
      w.(rings := w.rings[w.here := ring + [t]], tcb := w.tcb[t := Tcb(Runnable, flag, 0, 0, 0, InUser)],
         kid := w.kid[t := w.kid[c]])
    case Reschedule => Yielded(w)
    case Directed(t) => Dispatched(w, t)
    case Switch(k) => At(w, k, IndexOf(w.rings[k], w.own[k]))
    case NewChan(ch, capacity) => w.(chans := w.chans[ch := Chan(capacity, true, [])])
    case GiveUp(ch) => w.(chans := w.chans[ch := Chan(w.chans[ch].capacity, false, [])])
    case SndThd(ch, t) =>
      if t == c then w
      else
        var w1 := w.(tcb := w.tcb[t := w.tcb[t].(state := Blocked)]);
        if !w.chans[ch].open then w1
        else if Full(w.chans[ch]) then
          assert w1.tcb.Keys == w.tcb.Keys;
          Yielded(w1.(sending := w.sending[c := Parcel(ch, t)]))
        else Pushed(w1, ch, t)
    case RetrySnd =>
      var p := w.sending[c];
      if Full(w.chans[p.ch]) then Yielded(w) else Pushed(w.(sending := w.sending - {c}), p.ch, p.t)
    case RcvThd(ch) =>
      if w.chans[ch].flight == [] then Yielded(w)
      else
        var t := w.chans[ch].flight[0];
        if t !in w.tcb then w
        else
          var rings := Unlinked(w.rings, t);
          w.(kid := w.kid[t := w.kid[c]], rings := rings[w.here := rings[w.here] + [t]],
             tcb := w.tcb[t := w.tcb[t].(state := Runnable)],
             chans := w.chans[ch := w.chans[ch].(flight := w.chans[ch].flight[1..])])
    case JoinThd(t) =>
      if w.tcb[t].flag == NoJoin then w
      else if w.tcb[t].state == Dead then Reaped(w, t)
      else Dispatched(Linked(w, t), t)
    case ResumeJoin =>
      if w.tcb[c].state == Blocked then w
      else Reaped(w.(tcb := w.tcb[c := w.tcb[c].(pc := InUser)]), w.tcb[c].pc.target)
    case DieThd =>
      if w.tcb[c].flag == NoJoin then Left(w) else Yielded(Marked(w))
  }

  // ----- the invariant -----

  ghost function Times(r: seq<nat>, t: nat): nat {
    multiset(r)[t]
  }

  ghost predicate Counted(rings: map<nat, seq<nat>>, kid: map<nat, nat>, t: nat, k: nat)
    requires t in kid && k in rings
  {
    Times(rings[k], t) == if k == kid[t] then 1 else 0
  }

  /** Thread t is in exactly one ring, once, namely that of its kernel thread. */
  ghost predicate Placed(rings: map<nat, seq<nat>>, kid: map<nat, nat>, t: nat) {
    && t in kid && kid[t] in rings
    && (forall k {:trigger Counted(rings, kid, t, k)} :: k in rings ==> Counted(rings, kid, t, k))
  }

  ghost predicate RingsOk(rings: map<nat, seq<nat>>, kid: map<nat, nat>, tids: set<nat>) {
    && AllKnown(rings, tids) && kid.Keys == tids
    && (forall t {:trigger Placed(rings, kid, t)} :: t in tids ==> Placed(rings, kid, t))
  }

  /** The join links of one thread, as in LwtModel, except that a thread may also be BLOCKED because it
      has been sent. */
  ghost predicate LinkOk(tcb: map<nat, Tcb>, u: nat)
    requires u in tcb
  {
    var c := tcb[u];
    && u > 0
    && (c.state == Dead <==> c.pc == Exited)
    && (c.state == Dead ==> c.flag == Joinable)
    && (c.pc.InJoin? ==>
          && c.pc.target in tcb && c.pc.target != u
          && tcb[c.pc.target].joinedFrom == u && tcb[c.pc.target].flag == Joinable
          && (c.state == Blocked <==> tcb[c.pc.target].state != Dead))
    && (c.joinedFrom != 0 ==> c.joinedFrom in tcb && tcb[c.joinedFrom].pc == InJoin(u))
  }

  ghost predicate LinksOk(tcb: map<nat, Tcb>) {
    forall u {:trigger LinkOk(tcb, u)} :: u in tcb ==> LinkOk(tcb, u)
  }

  /** A thread on its way is BLOCKED, outside any join, and not the thread of a kernel thread's loop. */
  ghost predicate Traveller(tcb: map<nat, Tcb>, own: map<nat, nat>, t: nat) {
    t in tcb && tcb[t].state == Blocked && tcb[t].pc == InUser && !Own(own, t)
  }

  /** No thread twice in a buffer. */
  ghost predicate NoDup(q: seq<nat>) {
    forall i, j :: 0 <= i < j < |q| ==> q[i] != q[j]
  }

  ghost predicate CarriedOnce(chans: map<nat, Chan>, sending: map<nat, Parcel>, t: nat) {
    && (forall p, q :: Carried(chans, sending, t, p) && Carried(chans, sending, t, q) ==> p == q)
  }

  ghost predicate TravelOk(tcb: map<nat, Tcb>, own: map<nat, nat>, chans: map<nat, Chan>, sending: map<nat, Parcel>) {
    && (forall t, p {:trigger Carried(chans, sending, t, p)} ::
          Carried(chans, sending, t, p) ==> Traveller(tcb, own, t) && CarriedOnce(chans, sending, t))
    && (forall ch {:trigger chans[ch]} :: ch in chans ==> NoDup(chans[ch].flight))
    && (forall u {:trigger u in sending} :: u in sending ==>
          u in tcb && tcb[u].pc == InUser && sending[u].ch in chans)
  }

  /** The thread of kernel thread k's loop is in its ring and RUNNABLE. */
  ghost predicate AtHome(rings: map<nat, seq<nat>>, kid: map<nat, nat>, tcb: map<nat, Tcb>, own: map<nat, nat>, k: nat)
    requires k in own
  {
    && k in rings && own[k] in tcb && own[k] in kid && kid[own[k]] == k
    && tcb[own[k]].state == Runnable && tcb[own[k]].pc == InUser
  }

  ghost predicate OwnOk(rings: map<nat, seq<nat>>, kid: map<nat, nat>, tcb: map<nat, Tcb>, own: map<nat, nat>) {
    forall k {:trigger AtHome(rings, kid, tcb, own, k)} :: k in own ==> AtHome(rings, kid, tcb, own, k)
  }

  ghost predicate Sound(w: World) {
    && Shaped(w) && RingsOk(w.rings, w.kid, w.tcb.Keys)
    && LinksOk(w.tcb) && TravelOk(w.tcb, w.own, w.chans, w.sending)
    && OwnOk(w.rings, w.kid, w.tcb, w.own)
  }

  ghost predicate Inv(w: World) {
    Sound(w) && w.tcb[Current(w)].state == Runnable
  }

  // ----- rings -----

  lemma InOneRing(rings: map<nat, seq<nat>>, kid: map<nat, nat>, tids: set<nat>, t: nat, k: nat)
    requires RingsOk(rings, kid, tids) && t in tids && k in rings
    ensures t in kid && kid[t] in rings
    ensures t in rings[k] <==> k == kid[t]
    ensures Times(rings[k], t) == if k == kid[t] then 1 else 0
  {
    assert Placed(rings, kid, t) && Counted(rings, kid, t, k);
    assert t in rings[k] <==> multiset(rings[k])[t] > 0;
  }

  /** Enough to be in order: each ring's threads are known, and each thread is counted right in each ring. */
  lemma RingsFrom(rings: map<nat, seq<nat>>, kid: map<nat, nat>, tids: set<nat>)
    requires kid.Keys == tids && forall t :: t in tids ==> kid[t] in rings
    requires forall k, t {:trigger Counted(rings, kid, t, k)} :: k in rings && t in tids ==> Counted(rings, kid, t, k)
    requires AllKnown(rings, tids)
    ensures RingsOk(rings, kid, tids)
  {
    forall t | t in tids ensures Placed(rings, kid, t) {}
  }

  lemma TimesRotate(r: seq<nat>, i: nat)
    requires i <= |r|
    ensures forall t :: Times(Rotate(r, i), t) == Times(r, t)
    ensures forall t :: t in Rotate(r, i) <==> t in r
  {
    RotateShape(r, i);
  }

  lemma TimesAppend(r: seq<nat>, t: nat, u: nat)
    ensures Times(r + [t], u) == Times(r, u) + if u == t then 1 else 0
    ensures u !in r ==> Times(r, u) == 0
  {
    assert u in r <==> u in multiset(r);
  }

  lemma TimesWithout(r: seq<nat>, t: nat, u: nat)
    requires t in r && Times(r, t) == 1
    ensures Times(Without(r, t), u) == if u == t then 0 else Times(r, u)
    ensures u in Without(r, t) <==> u in r && u != t
    ensures r[0] != t ==> |Without(r, t)| > 0 && Without(r, t)[0] == r[0]
  {
    WithoutShape(r, t);
  }

  lemma RotatedRings(rings: map<nat, seq<nat>>, kid: map<nat, nat>, tids: set<nat>, k: nat, i: nat)
    requires RingsOk(rings, kid, tids) && k in rings && i <= |rings[k]|
    ensures RingsOk(rings[k := Rotate(rings[k], i)], kid, tids)
  {
    var rings' := rings[k := Rotate(rings[k], i)];
    TimesRotate(rings[k], i);
    hide Times, Rotate;
    forall j | j in rings' ensures Known(rings', tids, j) { assert Known(rings, tids, j); }
    forall j, t | j in rings' && t in tids ensures Counted(rings', kid, t, j) { InOneRing(rings, kid, tids, t, j); }
    forall t | t in tids ensures kid[t] in rings' { InOneRing(rings, kid, tids, t, k); }
    RingsFrom(rings', kid, tids);
  }

  lemma AddedRings(rings: map<nat, seq<nat>>, kid: map<nat, nat>, tids: set<nat>, k: nat, t: nat)
    requires RingsOk(rings, kid, tids) && k in rings && t !in tids
    ensures RingsOk(rings[k := rings[k] + [t]], kid[t := k], tids + {t})
  {
    var rings', kid' := rings[k := rings[k] + [t]], kid[t := k];
    forall j | j in rings' ensures Known(rings', tids + {t}, j) && t !in rings[j] { assert Known(rings, tids, j); }
    hide Times;
    forall j, u | j in rings' && u in tids + {t} ensures Counted(rings', kid', u, j) {
      if u in tids { InOneRing(rings, kid, tids, u, j); }
      TimesAppend(rings[j], t, u);
    }
    forall u | u in tids + {t} ensures kid'[u] in rings' {
      if u in tids { InOneRing(rings, kid, tids, u, k); }
    }
    RingsFrom(rings', kid', tids + {t});
  }

  /** Ring j after t has been unlinked. */
  lemma UnlinkedAt(rings: map<nat, seq<nat>>, kid: map<nat, nat>, tids: set<nat>, t: nat, j: nat)
    requires RingsOk(rings, kid, tids) && t in tids && j in rings
    ensures var r, r' := rings[j], Unlinked(rings, t)[j];
            && (forall u :: Times(r', u) == if u == t then 0 else Times(r, u))
            && (forall u :: u in r' <==> u in r && u != t)
            && (|r| > 0 && r[0] != t ==> |r'| > 0 && r'[0] == r[0])
            && (j != kid[t] ==> r' == r)
  {
    InOneRing(rings, kid, tids, t, j);
    var r, r' := rings[j], Unlinked(rings, t)[j];
    hide Without, Times;
    forall u ensures Times(r', u) == (if u == t then 0 else Times(r, u)) && (u in r' <==> u in r && u != t) {
      if t in r { TimesWithout(r, t, u); }
    }
    if t in r { TimesWithout(r, t, t); }
  }

  lemma ReapedRings(rings: map<nat, seq<nat>>, kid: map<nat, nat>, tids: set<nat>, t: nat)
    requires RingsOk(rings, kid, tids) && t in tids
    ensures RingsOk(Unlinked(rings, t), kid - {t}, tids - {t})
  {
    var rings', kid', tids' := Unlinked(rings, t), kid - {t}, tids - {t};
    hide Unlinked, Times;
    forall j | j in rings' ensures Known(rings', tids', j) {
      assert Known(rings, tids, j);
      UnlinkedAt(rings, kid, tids, t, j);
    }
    forall j, u | j in rings' && u in tids' ensures Counted(rings', kid', u, j) {
      InOneRing(rings, kid, tids, u, j);
      UnlinkedAt(rings, kid, tids, t, j);
    }
    forall u | u in tids' ensures kid'[u] in rings' { assert Placed(rings, kid, u); }
    assert kid'.Keys == tids';
    RingsFrom(rings', kid', tids');
  }

  /** Thread t moves from the ring it is in to the end of ring k. */
  lemma MovedRings(rings: map<nat, seq<nat>>, kid: map<nat, nat>, tids: set<nat>, k: nat, t: nat)
    requires RingsOk(rings, kid, tids) && t in tids && k in rings
    ensures var rs := Unlinked(rings, t);
            RingsOk(rs[k := rs[k] + [t]], kid[t := k], tids)
  {
    var rs := Unlinked(rings, t);
    var rings', kid' := rs[k := rs[k] + [t]], kid[t := k];
    hide Unlinked, Times;
    forall j | j in rings' ensures Known(rings', tids, j) {
      assert Known(rings, tids, j);
      UnlinkedAt(rings, kid, tids, t, j);
    }
    forall j, u | j in rings' && u in tids ensures Counted(rings', kid', u, j) {
      InOneRing(rings, kid, tids, u, j);
      UnlinkedAt(rings, kid, tids, t, j);
      TimesAppend(rs[j], t, u);
    }
    forall u | u in tids ensures kid'[u] in rings' { assert Placed(rings, kid, u); }
    RingsFrom(rings', kid', tids);
  }

  // ----- join links -----

  lemma LinksNew(tcb: map<nat, Tcb>, t: nat, flag: Flag)
    requires LinksOk(tcb) && t !in tcb && t > 0
    ensures LinksOk(tcb[t := Tcb(Runnable, flag, 0, 0, 0, InUser)])
  {
    var tcb' := tcb[t := Tcb(Runnable, flag, 0, 0, 0, InUser)];
    forall u | u in tcb' ensures LinkOk(tcb', u) { if u != t { assert LinkOk(tcb, u); } }
  }

  /** Being sent or received does not touch the links of a thread outside joins. */
  lemma LinksState(tcb: map<nat, Tcb>, t: nat, st: ThreadState)
    requires LinksOk(tcb) && t in tcb && tcb[t].pc == InUser && st != Dead
    ensures LinksOk(tcb[t := tcb[t].(state := st)])
  {
    var tcb' := tcb[t := tcb[t].(state := st)];
    assert LinkOk(tcb, t);
    forall u | u in tcb' ensures LinkOk(tcb', u) { assert LinkOk(tcb, u); }
  }

  lemma LinksJoined(tcb: map<nat, Tcb>, c: nat, t: nat)
    requires LinksOk(tcb) && c in tcb && t in tcb && c != t && tcb[c].state == Runnable && tcb[c].pc == InUser
    requires tcb[t].flag == Joinable && tcb[t].state == Runnable && tcb[t].joinedFrom == 0
    ensures var tcb1 := tcb[c := tcb[c].(joiningTo := t, state := Blocked, pc := InJoin(t))];
            LinksOk(tcb1[t := tcb1[t].(joinedFrom := c)])
  {
    var tcb1 := tcb[c := tcb[c].(joiningTo := t, state := Blocked, pc := InJoin(t))];
    var tcb' := tcb1[t := tcb1[t].(joinedFrom := c)];
    assert LinkOk(tcb, c) && LinkOk(tcb, t);
    forall u | u in tcb' ensures LinkOk(tcb', u) { assert LinkOk(tcb, u); }
  }

  /** A thread that nobody is joining and that is joining nobody can go. */
  lemma LinksReaped(tcb: map<nat, Tcb>, t: nat)
    requires LinksOk(tcb) && t in tcb && !tcb[t].pc.InJoin? && forall u :: u in tcb ==> tcb[u].pc != InJoin(t)
    ensures LinksOk(tcb - {t})
  {
    forall u | u in tcb - {t} ensures LinkOk(tcb - {t}, u) { assert LinkOk(tcb, u); }
  }

  lemma NobodyJoins(tcb: map<nat, Tcb>, t: nat)
    requires LinksOk(tcb) && t in tcb && tcb[t].joinedFrom == 0
    ensures forall u :: u in tcb ==> tcb[u].pc != InJoin(t)
  {
    forall u | u in tcb ensures tcb[u].pc != InJoin(t) { assert LinkOk(tcb, u); }
  }

  lemma LinksResumed(tcb: map<nat, Tcb>, c: nat)
    requires LinksOk(tcb) && c in tcb && tcb[c].pc.InJoin? && tcb[c].state == Runnable
    ensures var t, tcb1 := tcb[c].pc.target, tcb[c := tcb[c].(pc := InUser)];
            t in tcb && tcb[t].state == Dead && tcb[t].pc == Exited && t != c && LinksOk(tcb1 - {t})
  {
    var t, tcb1 := tcb[c].pc.target, tcb[c := tcb[c].(pc := InUser)];
    assert LinkOk(tcb, c);
    assert LinkOk(tcb, t);
    forall u | u in tcb1 - {t} ensures LinkOk(tcb1 - {t}, u) {
      assert LinkOk(tcb, u);
    }
  }

  lemma ZeroUnused(tcb: map<nat, Tcb>)
    requires LinksOk(tcb)
    ensures 0 !in tcb
  {
    forall u | u in tcb ensures u > 0 { assert LinkOk(tcb, u); }
  }

  lemma LinksMarked(w: World)
    requires Shaped(w) && LinksOk(w.tcb)
    requires var c := w.tcb[Current(w)]; c.flag == Joinable && c.state == Runnable && c.pc == InUser
    ensures LinksOk(Marked(w).tcb)
  {
    var c := Current(w);
    var j := w.tcb[c].joinedFrom;
    assert LinkOk(w.tcb, c);
    ZeroUnused(w.tcb);
    if j != 0 { assert LinkOk(w.tcb, j); }
    var tcb' := Marked(w).tcb;
    forall u | u in tcb' ensures LinkOk(tcb', u) { assert LinkOk(w.tcb, u); }
  }

  // ----- threads on their way -----

  lemma TravelKept(tcb: map<nat, Tcb>, tcb': map<nat, Tcb>, own: map<nat, nat>, chans: map<nat, Chan>,
                   sending: map<nat, Parcel>)
    requires TravelOk(tcb, own, chans, sending)
    requires forall t :: t in tcb && tcb[t].state == Blocked && tcb[t].pc == InUser ==>
               t in tcb' && tcb'[t].state == Blocked && tcb'[t].pc == InUser
    requires forall u :: u in sending && u in tcb && tcb[u].pc == InUser ==> u in tcb' && tcb'[u].pc == InUser
    ensures TravelOk(tcb', own, chans, sending)
  {
    forall t, p | Carried(chans, sending, t, p)
      ensures Traveller(tcb', own, t) && CarriedOnce(chans, sending, t)
    {
      assert Traveller(tcb, own, t);
    }
  }

  lemma NotCarried(tcb: map<nat, Tcb>, own: map<nat, nat>, chans: map<nat, Chan>, sending: map<nat, Parcel>, t: nat)
    requires TravelOk(tcb, own, chans, sending)
    requires t !in tcb || tcb[t].state != Blocked || tcb[t].pc != InUser || Own(own, t)
    ensures forall p :: !Carried(chans, sending, t, p)
  {
  }

  /** Thread t goes into buffer ch. */
  lemma TravelPushed(tcb: map<nat, Tcb>, own: map<nat, nat>, chans: map<nat, Chan>, sending: map<nat, Parcel>,
                     ch: nat, t: nat)
    requires TravelOk(tcb, own, chans, sending) && ch in chans && Traveller(tcb, own, t)
    requires forall p :: !Carried(chans, sending, t, p)
    ensures TravelOk(tcb, own, chans[ch := chans[ch].(flight := chans[ch].flight + [t])], sending)
  {
    var chans' := chans[ch := chans[ch].(flight := chans[ch].flight + [t])];
    assert !Carried(chans, sending, t, In(ch));
    forall u, p | Carried(chans', sending, u, p)
      ensures Carried(chans, sending, u, p) || (u == t && p == In(ch))
    {
    }
    forall u, p | Carried(chans', sending, u, p)
      ensures Traveller(tcb, own, u) && CarriedOnce(chans', sending, u)
    {
      if u != t { assert Carried(chans, sending, u, p); }
    }
  }

  /** Thread t waits in the hands of sender u. */
  lemma TravelHeld(tcb: map<nat, Tcb>, own: map<nat, nat>, chans: map<nat, Chan>, sending: map<nat, Parcel>,
                   u: nat, ch: nat, t: nat)
    requires TravelOk(tcb, own, chans, sending) && ch in chans && Traveller(tcb, own, t)
    requires u !in sending && u in tcb && tcb[u].pc == InUser && forall p :: !Carried(chans, sending, t, p)
    ensures TravelOk(tcb, own, chans, sending[u := Parcel(ch, t)])
  {
    var sending' := sending[u := Parcel(ch, t)];
    forall v, p | Carried(chans, sending', v, p)
      ensures Carried(chans, sending, v, p) || (v == t && p == By(u))
    {
    }
    forall v, p | Carried(chans, sending', v, p)
      ensures Traveller(tcb, own, v) && CarriedOnce(chans, sending', v)
    {
      if v != t { assert Carried(chans, sending, v, p); }
    }
  }

  /** Sender u lets go of its thread, which is then nowhere. */
  lemma TravelReleased(tcb: map<nat, Tcb>, own: map<nat, nat>, chans: map<nat, Chan>, sending: map<nat, Parcel>, u: nat)
    requires TravelOk(tcb, own, chans, sending) && u in sending
    ensures var t := sending[u].t;
            && TravelOk(tcb, own, chans, sending - {u}) && Traveller(tcb, own, t)
            && forall p :: !Carried(chans, sending - {u}, t, p)
  {
    var t, sending' := sending[u].t, sending - {u};
    assert Carried(chans, sending, t, By(u));
    forall v, p | Carried(chans, sending', v, p) ensures Carried(chans, sending, v, p) {}
    forall p ensures !Carried(chans, sending', t, p) {
      assert CarriedOnce(chans, sending, t) && (Carried(chans, sending', t, p) ==> Carried(chans, sending, t, p));
    }
  }

  /** The oldest thread leaves buffer ch, and is then nowhere. */
  lemma TravelTaken(tcb: map<nat, Tcb>, own: map<nat, nat>, chans: map<nat, Chan>, sending: map<nat, Parcel>, ch: nat)
    requires TravelOk(tcb, own, chans, sending) && ch in chans && chans[ch].flight != []
    ensures var t := chans[ch].flight[0]; var chans' := chans[ch := chans[ch].(flight := chans[ch].flight[1..])];
            && TravelOk(tcb, own, chans', sending) && Traveller(tcb, own, t)
            && forall p :: !Carried(chans', sending, t, p)
  {
    var q := chans[ch].flight;
    var t, chans' := q[0], chans[ch := chans[ch].(flight := q[1..])];
    assert t in q && Carried(chans, sending, t, In(ch));
    assert q == [t] + q[1..];
    forall v, p | Carried(chans', sending, v, p) ensures Carried(chans, sending, v, p) {}
    forall p ensures !Carried(chans', sending, t, p) {
      assert CarriedOnce(chans, sending, t) && (Carried(chans', sending, t, p) ==> Carried(chans, sending, t, p));
    }
  }

  /** A buffer is emptied, or a new one is empty. */
  lemma TravelEmptied(tcb: map<nat, Tcb>, own: map<nat, nat>, chans: map<nat, Chan>, sending: map<nat, Parcel>,
                      ch: nat, capacity: nat, open: bool)
    requires TravelOk(tcb, own, chans, sending)
    ensures TravelOk(tcb, own, chans[ch := Chan(capacity, open, [])], sending)
  {
    var chans' := chans[ch := Chan(capacity, open, [])];
    forall v, p | Carried(chans', sending, v, p) ensures Carried(chans, sending, v, p) {}
  }

  lemma OwnKept(rings: map<nat, seq<nat>>, kid: map<nat, nat>, tcb: map<nat, Tcb>, own: map<nat, nat>,
                rings': map<nat, seq<nat>>, kid': map<nat, nat>, tcb': map<nat, Tcb>)
    requires OwnOk(rings, kid, tcb, own) && rings.Keys <= rings'.Keys
    requires forall t :: Own(own, t) && t in tcb && t in kid ==>
               && t in kid' && kid'[t] == kid[t]
               && t in tcb' && tcb'[t].state == tcb[t].state && tcb'[t].pc == tcb[t].pc
    ensures OwnOk(rings', kid', tcb', own)
  {
    forall k | k in own ensures AtHome(rings', kid', tcb', own, k) {
      assert AtHome(rings, kid, tcb, own, k) && Own(own, own[k]);
    }
  }

  // ----- scans -----

  /** The scan of a ring, which the code does not bound, ends if and only if the ring holds a RUNNABLE
      thread: a whole lap then leads to one. */
  lemma ScanStopsIff(ring: seq<nat>, tcb: map<nat, Tcb>)
    requires |ring| > 0 && forall t :: t in ring ==> t in tcb
    ensures var r := Rotate(ring, Scan(ring, tcb, 1));
            && |r| > 0 && r[0] in ring
            && (tcb[r[0]].state == Runnable <==> exists t :: t in ring && tcb[t].state == Runnable)
  {
    var k := Scan(ring, tcb, 1);
    RotateShape(ring, k);
    var r := Rotate(ring, k);
    assert r[0] in r;
    if t :| t in ring && tcb[t].state == Runnable {
      var i := IndexOf(ring, t);
      assert k == |ring| ==> i == 0;
    }
  }

  lemma AtInv(w: World, k: nat, i: nat)
    requires Sound(w) && k in w.rings && i <= |w.rings[k]| && |w.rings[k]| > 0
    requires var t := Rotate(w.rings[k], i)[0]; t in w.tcb && w.tcb[t].state == Runnable
    ensures Inv(At(w, k, i))
  {
    hide LinksOk, TravelOk, Rotate;
    RotatedRings(w.rings, w.kid, w.tcb.Keys, k, i);
    assert |Rotate(w.rings[k], i)| > 0 by { RotateShape(w.rings[k], i); }
    var w' := At(w, k, i);
    OwnKept(w.rings, w.kid, w.tcb, w.own, w'.rings, w'.kid, w'.tcb);
  }

  lemma YieldedInv(w: World)
    requires Sound(w) && exists t :: t in w.rings[w.here] && t in w.tcb && w.tcb[t].state == Runnable
    ensures Inv(Yielded(w))
  {
    assert Known(w.rings, w.tcb.Keys, w.here);
    ScanStopsIff(w.rings[w.here], w.tcb);
    AtInv(w, w.here, Scan(w.rings[w.here], w.tcb, 1));
  }

  /** The current thread yields. */
  lemma YieldInv(w: World)
    requires Inv(w)
    ensures Inv(Yielded(w))
  {
    assert Current(w) in w.rings[w.here];
    YieldedInv(w);
  }

  lemma DispatchedInv(w: World, t: nat)
    requires Sound(w) && t in w.tcb && w.tcb[t].state == Runnable
    ensures t in w.kid && w.kid[t] in w.rings && t in w.rings[w.kid[t]] && Inv(Dispatched(w, t))
  {
    assert Placed(w.rings, w.kid, t);
    InOneRing(w.rings, w.kid, w.tcb.Keys, t, w.kid[t]);
    var ring := w.rings[w.kid[t]];
    RotateShape(ring, IndexOf(ring, t));
    AtInv(w, w.kid[t], IndexOf(ring, t));
  }

  // ----- every step keeps the invariant -----

  lemma CurrentIs(w: World)
    requires Inv(w)
    ensures var c := Current(w);
            && c in w.rings[w.here] && c in w.kid && w.kid[c] == w.here
            && (forall p :: !Carried(w.chans, w.sending, c, p))
            && (c !in w.sending && !w.tcb[c].pc.InJoin? ==> w.tcb[c].pc == InUser)
  {
    InOneRing(w.rings, w.kid, w.tcb.Keys, Current(w), w.here);
    NotCarried(w.tcb, w.own, w.chans, w.sending, Current(w));
    assert LinkOk(w.tcb, Current(w));
  }

  lemma NewInv(w: World, t: nat, flag: Flag)
    requires Inv(w) && Allowed(w, New(t, flag))
    ensures Inv(Next(w, New(t, flag)))
  {
    hide RingsOk, LinksOk, LinkOk, TravelOk, OwnOk, Placed;
    CurrentIs(w);
    var w' := Next(w, New(t, flag));
    AddedRings(w.rings, w.kid, w.tcb.Keys, w.here, t);
    assert w'.tcb.Keys == w.tcb.Keys + {t};
    assert AllKnown(w'.rings, w'.tcb.Keys) by { RingsKnown(w'.rings, w'.kid, w'.tcb.Keys); }
    LinksNew(w.tcb, t, flag);
    TravelKept(w.tcb, w'.tcb, w.own, w.chans, w.sending);
    OwnKept(w.rings, w.kid, w.tcb, w.own, w'.rings, w'.kid, w'.tcb);
  }

  lemma RingsKnown(rings: map<nat, seq<nat>>, kid: map<nat, nat>, tids: set<nat>)
    requires RingsOk(rings, kid, tids)
    ensures AllKnown(rings, tids)
  {
  }

  lemma ChanInv(w: World, ch: nat, capacity: nat, open: bool)
    requires Inv(w)
    ensures Inv(w.(chans := w.chans[ch := Chan(capacity, open, [])]))
  {
    hide RingsOk, LinksOk, TravelOk, OwnOk;
    TravelEmptied(w.tcb, w.own, w.chans, w.sending, ch, capacity, open);
  }

  /** A thread is marked BLOCKED to be sent. */
  ghost function Blocking(w: World, t: nat): World
    requires t in w.tcb
  {
    w.(tcb := w.tcb[t := w.tcb[t].(state := Blocked)])
  }

  lemma BlockingInv(w: World, ch: nat, t: nat)
    requires Inv(w) && Allowed(w, SndThd(ch, t)) && t != Current(w)
    ensures Inv(Blocking(w, t)) && Traveller(Blocking(w, t).tcb, w.own, t) && Current(Blocking(w, t)) == Current(w)
    ensures forall p :: !Carried(w.chans, w.sending, t, p)
  {
    hide RingsOk, LinksOk, LinkOk, TravelOk, OwnOk;
    var w' := Blocking(w, t);
    assert w'.tcb.Keys == w.tcb.Keys;
    LinksState(w.tcb, t, Blocked);
    TravelKept(w.tcb, w'.tcb, w.own, w.chans, w.sending);
    OwnKept(w.rings, w.kid, w.tcb, w.own, w.rings, w.kid, w'.tcb);
  }

  lemma SndInv(w: World, ch: nat, t: nat)
    requires Inv(w) && Allowed(w, SndThd(ch, t))
    ensures Inv(Next(w, SndThd(ch, t)))
  {
    hide RingsOk, LinksOk, LinkOk, TravelOk, OwnOk, Traveller;
    var c := Current(w);
    if t == c { return; }
    BlockingInv(w, ch, t);
    CurrentIs(w);
    var w1 := Blocking(w, t);
    if w.chans[ch].open {
      if Full(w.chans[ch]) {
        TravelHeld(w1.tcb, w.own, w.chans, w.sending, c, ch, t);
        YieldInv(w1.(sending := w.sending[c := Parcel(ch, t)]));
      } else {
        TravelPushed(w1.tcb, w.own, w.chans, w.sending, ch, t);
      }
    }
  }

  lemma RetryInv(w: World)
    requires Inv(w) && Allowed(w, RetrySnd)
    ensures Inv(Next(w, RetrySnd))
  {
    hide RingsOk, LinksOk, TravelOk, OwnOk, Traveller;
    var c := Current(w);
    var p := w.sending[c];
    if Full(w.chans[p.ch]) {
      YieldInv(w);
    } else {
      TravelReleased(w.tcb, w.own, w.chans, w.sending, c);
      TravelPushed(w.tcb, w.own, w.chans, w.sending - {c}, p.ch, p.t);
    }
  }

  lemma RcvInv(w: World, ch: nat)
    requires Inv(w) && Allowed(w, RcvThd(ch))
    ensures Inv(Next(w, RcvThd(ch)))
  {
    hide RingsOk, LinksOk, LinkOk, TravelOk, OwnOk, Unlinked;
    if w.chans[ch].flight == [] {
      YieldInv(w);
    } else {
      var t := w.chans[ch].flight[0];
      var c := Current(w);
      CurrentIs(w);
      TravelTaken(w.tcb, w.own, w.chans, w.sending, ch);
      var w' := Next(w, RcvThd(ch));
      assert w'.tcb.Keys == w.tcb.Keys;
      MovedRings(w.rings, w.kid, w.tcb.Keys, w.here, t);
      RingsKnown(w'.rings, w'.kid, w'.tcb.Keys);
      UnlinkedAt(w.rings, w.kid, w.tcb.Keys, t, w.here);
      LinksState(w.tcb, t, Runnable);
      TravelExcept(w.tcb, w'.tcb, w.own, w'.chans, w.sending, t);
      OwnKept(w.rings, w.kid, w.tcb, w.own, w'.rings, w'.kid, w'.tcb);
    }
  }

  /** A thread that is nowhere on its way may be made RUNNABLE. */
  lemma TravelExcept(tcb: map<nat, Tcb>, tcb': map<nat, Tcb>, own: map<nat, nat>, chans: map<nat, Chan>,
                     sending: map<nat, Parcel>, t: nat)
    requires TravelOk(tcb, own, chans, sending) && t in tcb && forall p :: !Carried(chans, sending, t, p)
    requires tcb' == tcb[t := tcb[t].(state := Runnable)]
    ensures TravelOk(tcb', own, chans, sending)
  {
    forall u, p | Carried(chans, sending, u, p)
      ensures Traveller(tcb', own, u) && CarriedOnce(chans, sending, u)
    {
      assert u != t && Traveller(tcb, own, u);
    }
  }

  /** A DEAD thread is freed; tcb1 already is what the other threads will hold. */
  lemma ReapedInv(w: World, tcb1: map<nat, Tcb>, t: nat)
    requires Inv(w) && t in w.tcb && w.tcb[t].state == Dead && t != Current(w) && tcb1.Keys == w.tcb.Keys
    requires LinksOk(tcb1 - {t}) && tcb1[Current(w)].state == Runnable
    requires forall u :: u in w.tcb && w.tcb[u].pc == InUser ==> tcb1[u] == w.tcb[u]
    requires w.tcb[t].pc == Exited
    ensures Inv(Reaped(w.(tcb := tcb1), t)) && Current(Reaped(w.(tcb := tcb1), t)) == Current(w)
  {
    hide RingsOk, LinksOk, TravelOk, OwnOk, Unlinked;
    CurrentIs(w);
    var w' := Reaped(w.(tcb := tcb1), t);
    assert w'.tcb.Keys == w.tcb.Keys - {t};
    ReapedRings(w.rings, w.kid, w.tcb.Keys, t);
    RingsKnown(w'.rings, w'.kid, w'.tcb.Keys);
    UnlinkedAt(w.rings, w.kid, w.tcb.Keys, t, w.here);
    TravelKept(w.tcb, w'.tcb, w.own, w.chans, w.sending);
    OwnAlive(w, t);
    OwnKept(w.rings, w.kid, w.tcb, w.own, w'.rings, w'.kid, w'.tcb);
  }

  lemma OwnAlive(w: World, t: nat)
    requires Inv(w) && t in w.tcb && w.tcb[t].state != Runnable
    ensures !Own(w.own, t)
    ensures forall u :: Own(w.own, u) && u in w.tcb ==> w.tcb[u].pc == InUser
  {
    forall k | k in w.own ensures w.own[k] != t && (w.own[k] in w.tcb ==> w.tcb[w.own[k]].pc == InUser) {
      assert AtHome(w.rings, w.kid, w.tcb, w.own, k);
    }
  }

  lemma JoinDeadInv(w: World, t: nat)
    requires Inv(w) && Allowed(w, JoinThd(t)) && w.tcb[t].flag == Joinable && w.tcb[t].state == Dead
    ensures Inv(Reaped(w, t))
  {
    assert LinkOk(w.tcb, t);
    NobodyJoins(w.tcb, t);
    LinksReaped(w.tcb, t);
    ReapedInv(w, w.tcb, t);
  }

  lemma JoinLiveInv(w: World, t: nat)
    requires Inv(w) && Allowed(w, JoinThd(t)) && w.tcb[t].flag == Joinable && w.tcb[t].state != Dead
    ensures Inv(Dispatched(Linked(w, t), t))
  {
    var c := Current(w);
    CurrentIs(w);
    LinksJoined(w.tcb, c, t);
    var w' := Linked(w, t);
    hide RingsOk, LinksOk, LinkOk, TravelOk, OwnOk;
    TravelKept(w.tcb, w'.tcb, w.own, w.chans, w.sending);
    OwnKept(w.rings, w.kid, w.tcb, w.own, w.rings, w.kid, w'.tcb);
    DispatchedInv(w', t);
  }

  lemma ResumeInv(w: World)
    requires Inv(w) && Allowed(w, ResumeJoin)
    ensures Inv(Next(w, ResumeJoin))
  {
    var c := Current(w);
    var tcb1 := w.tcb[c := w.tcb[c].(pc := InUser)];
    LinksResumed(w.tcb, c);
    assert tcb1.Keys == w.tcb.Keys;
    ReapedInv(w, tcb1, w.tcb[c].pc.target);
  }

  lemma MarkedInv(w: World)
    requires Inv(w) && Allowed(w, DieThd) && w.tcb[Current(w)].flag == Joinable
    ensures Inv(Yielded(Marked(w)))
  {
    var c, w' := Current(w), Marked(w);
    CurrentIs(w);
    LinksMarked(w);
    assert LinkOk(w.tcb, c);
    JoinerNotOwn(w);
    hide RingsOk, LinksOk, LinkOk, TravelOk, OwnOk;
    TravelKept(w.tcb, w'.tcb, w.own, w.chans, w.sending);
    OwnKept(w.rings, w.kid, w.tcb, w.own, w.rings, w.kid, w'.tcb);
    YieldedInv(w');
  }

  lemma JoinerNotOwn(w: World)
    requires Inv(w)
    ensures var j := w.tcb[Current(w)].joinedFrom; j in w.tcb ==> !Own(w.own, j) && w.tcb[j].pc.InJoin?
  {
    var c := Current(w);
    var j := w.tcb[c].joinedFrom;
    assert LinkOk(w.tcb, c);
    assert j in w.tcb ==> LinkOk(w.tcb, j);
    forall k | k in w.own ensures w.own[k] in w.tcb && w.tcb[w.own[k]].pc == InUser {
      assert AtHome(w.rings, w.kid, w.tcb, w.own, k);
    }
  }

  /** A LWT_NOJOIN thread scans on to another thread of its ring and leaves the ring. */
  lemma LeaveInv(w: World)
    requires Inv(w) && Allowed(w, DieThd) && w.tcb[Current(w)].flag == NoJoin
    ensures Inv(Left(w))
  {
    var c, w', w1 := Current(w), Left(w), Yielded(w);
    CurrentIs(w);
    NoJoinUnlinked(w);
    LinksReaped(w.tcb, c);
    LeaveScan(w);
    YieldInv(w);
    LeftRings(w);
    hide RingsOk, LinksOk, TravelOk, OwnOk, Scan, Rotate, Allowed;
    assert w'.tcb.Keys == w.tcb.Keys - {c};
    RingsKnown(w'.rings, w'.kid, w'.tcb.Keys);
    TravelKept(w.tcb, w'.tcb, w.own, w.chans, w.sending);
    OwnKept(w.rings, w.kid, w.tcb, w.own, w'.rings, w'.kid, w'.tcb);
  }

  lemma LeftRings(w: World)
    requires Inv(w) && Inv(Yielded(w)) && Current(w) in Yielded(w).rings[w.here]
    requires Yielded(w).rings[w.here][0] != Current(w)
    ensures var w', c := Left(w), Current(w);
            && RingsOk(w'.rings, w'.kid, w.tcb.Keys - {c})
            && w'.rings[w.here] == Without(Yielded(w).rings[w.here], c)
            && |w'.rings[w.here]| > 0 && w'.rings[w.here][0] == Yielded(w).rings[w.here][0]
  {
    var c, w1 := Current(w), Yielded(w);
    hide LinksOk, TravelOk, OwnOk, Scan, Rotate;
    ReapedRings(w1.rings, w1.kid, w1.tcb.Keys, c);
    UnlinkedOnly(w1, c);
    assert Left(w).rings == Unlinked(w1.rings, c);
    UnlinkedAt(w1.rings, w1.kid, w1.tcb.Keys, c, w.here);
  }

  lemma NoJoinUnlinked(w: World)
    requires Inv(w) && w.tcb[Current(w)].flag == NoJoin && Current(w) !in w.sending && !w.tcb[Current(w)].pc.InJoin?
    ensures var c := Current(w); w.tcb[c].joinedFrom == 0 && Marked(w).tcb == w.tcb[c := Marked(w).tcb[c]]
    ensures forall u :: u in w.tcb ==> w.tcb[u].pc != InJoin(Current(w))
  {
    var c := Current(w);
    assert LinkOk(w.tcb, c);
    var j := w.tcb[c].joinedFrom;
    assert j in w.tcb ==> LinkOk(w.tcb, j);
    ZeroUnused(w.tcb);
    forall u | u in w.tcb ensures w.tcb[u].pc != InJoin(c) { assert LinkOk(w.tcb, u); }
  }

  /** The scan of the dying thread stops before it comes round to that thread. */
  lemma LeaveScan(w: World)
    requires Inv(w) && Allowed(w, DieThd) && w.tcb[Current(w)].flag == NoJoin
    ensures var r := Yielded(w).rings[w.here]; |r| > 0 && Current(w) in r && r[0] != Current(w)
  {
    var c, ring := Current(w), w.rings[w.here];
    assert Known(w.rings, w.tcb.Keys, w.here);
    var k := Scan(ring, w.tcb, 1);
    NoJoinUnlinked(w);
    RotateShape(ring, k);
    var t :| t in ring && t != c && t in Marked(w).tcb && Marked(w).tcb[t].state == Runnable;
    var i := IndexOf(ring, t);
    InOneRing(w.rings, w.kid, w.tcb.Keys, c, w.here);
    assert 1 <= i && w.tcb[t].state == Runnable;
    if ring[k] == c { Repeats(ring, 0, k); }
  }

  lemma UnlinkedOnly(w: World, c: nat)
    requires Inv(w) && c in w.tcb && c in w.rings[w.here]
    ensures Unlinked(w.rings, c) == w.rings[w.here := Without(w.rings[w.here], c)]
  {
    forall k | k in w.rings ensures c in w.rings[k] <==> k == w.here {
      InOneRing(w.rings, w.kid, w.tcb.Keys, c, k);
      InOneRing(w.rings, w.kid, w.tcb.Keys, c, w.here);
    }
  }

  lemma StepInv(w: World, a: Move)
    requires Inv(w) && Allowed(w, a)
    ensures Inv(Next(w, a))
  {
    hide RingsOk, LinksOk, TravelOk;
    match a
    case New(t, flag) => NewInv(w, t, flag);
    case Reschedule => YieldInv(w);
    case Directed(t) => if w.tcb[t].state == Runnable { DispatchedInv(w, t); }
    case Switch(k) => SwitchInv(w, k);
    case NewChan(ch, capacity) => ChanInv(w, ch, capacity, true);
    case GiveUp(ch) => ChanInv(w, ch, w.chans[ch].capacity, false);
    case SndThd(ch, t) => SndInv(w, ch, t);
    case RetrySnd => RetryInv(w);
    case RcvThd(ch) => RcvInv(w, ch);
    case JoinThd(t) =>
      if w.tcb[t].flag == Joinable {
        if w.tcb[t].state == Dead { JoinDeadInv(w, t); } else { JoinLiveInv(w, t); }
      }
    case ResumeJoin => ResumeInv(w);
    case DieThd => if w.tcb[Current(w)].flag == NoJoin { LeaveInv(w); } else { MarkedInv(w); }
  }

  lemma SwitchInv(w: World, k: nat)
    requires Inv(w) && Allowed(w, Switch(k))
    ensures Inv(Next(w, Switch(k)))
  {
    var i := IndexOf(w.rings[k], w.own[k]);
    assert AtHome(w.rings, w.kid, w.tcb, w.own, k);
    RotateShape(w.rings[k], i);
    AtInv(w, k, i);
  }

  // ----- rings whose scans end -----

  /** In the ring of a kernel thread's loop every scan ends, a dying thread's too: the loop's own thread is
      RUNNABLE there. */
  lemma LoopRingScansEnd(w: World, k: nat)
    requires Inv(w) && k in w.own
    ensures k in w.rings && exists t :: t in w.rings[k] && t in w.tcb && w.tcb[t].state == Runnable
    ensures k == w.here && !Own(w.own, Current(w)) ==> AnotherRunnable(w.rings[k], Marked(w).tcb, Current(w))
  {
    var t := w.own[k];
    assert AtHome(w.rings, w.kid, w.tcb, w.own, k) && Own(w.own, t);
    InOneRing(w.rings, w.kid, w.tcb.Keys, t, k);
  }

  /** In any other ring it depends.  The scan of a dying thread, with its joiner woken already if it is
      joinable, leads to another RUNNABLE thread if and only if the ring holds one. */
  lemma DyingScanIff(w: World)
    requires Inv(w) && !w.tcb[Current(w)].pc.InJoin?
    ensures var c, ring := Current(w), w.rings[w.here];
            var tcb := if w.tcb[c].flag == NoJoin then w.tcb else Marked(w).tcb;
            && (forall t :: t in ring ==> t in tcb)
            && var r := Rotate(ring, Scan(ring, tcb, 1));
               && |r| > 0 && r[0] in tcb
               && (r[0] != c && tcb[r[0]].state == Runnable <==> AnotherRunnable(ring, Marked(w).tcb, c))
  {
    var c, ring := Current(w), w.rings[w.here];
    var tcb := if w.tcb[c].flag == NoJoin then w.tcb else Marked(w).tcb;
    assert Known(w.rings, w.tcb.Keys, w.here) && LinkOk(w.tcb, c);
    var j := w.tcb[c].joinedFrom;
    if j in w.tcb { assert LinkOk(w.tcb, j); }
    assert w.tcb[c].flag == NoJoin ==> forall t :: t in w.tcb && t != c ==> Marked(w).tcb[t] == w.tcb[t];
    var k := Scan(ring, tcb, 1);
    RotateShape(ring, k);
    assert Rotate(ring, k)[0] in Rotate(ring, k);
    if t :| t in ring && t != c && t in Marked(w).tcb && Marked(w).tcb[t].state == Runnable {
      var i := IndexOf(ring, t);
      assert 1 <= i && k <= i;
      InOneRing(w.rings, w.kid, w.tcb.Keys, c, w.here);
      if ring[k] == c { Repeats(ring, 0, k); }
    }
  }

  // ----- runs -----

  ghost predicate Run(w: World, moves: seq<Move>)
    decreases |moves|
  {
    Shaped(w) && (|moves| > 0 ==> Allowed(w, moves[0]) && Run(Next(w, moves[0]), moves[1..]))
  }

  ghost function Exec(w: World, moves: seq<Move>): World
    requires Run(w, moves)
    decreases |moves|
  {
    if |moves| == 0 then w else Exec(Next(w, moves[0]), moves[1..])
  }

  /** Each kernel thread with its first thread alone in its ring; `loops` are those that run the loop of
      `lwt_kthd_create`. */
  ghost function Start(first: map<nat, nat>, loops: set<nat>, here: nat): World {
    World(map k | k in first :: [first[k]],
          map t | t in first.Values :: Tcb(Runnable, Joinable, 0, 0, 0, InUser),
          map t | t in first.Values :: (var k :| k in first && first[k] == t; k),
          map k | k in first && k in loops :: first[k], here, map[], map[])
  }

  ghost predicate Injective(first: map<nat, nat>) {
    forall j, k :: j in first && k in first && first[j] == first[k] ==> j == k
  }

  lemma StartRings(first: map<nat, nat>, loops: set<nat>, here: nat)
    requires here in first && Injective(first)
    ensures var w := Start(first, loops, here); RingsOk(w.rings, w.kid, w.tcb.Keys)
  {
    var w := Start(first, loops, here);
    forall k | k in w.rings ensures Known(w.rings, w.tcb.Keys, k) { assert first[k] in first.Values; }
    forall t, k | t in w.tcb && k in w.rings ensures Counted(w.rings, w.kid, t, k) { assert first[w.kid[t]] == t; }
    RingsFrom(w.rings, w.kid, w.tcb.Keys);
  }

  lemma StartInv(first: map<nat, nat>, loops: set<nat>, here: nat)
    requires here in first && Injective(first) && 0 !in first.Values
    ensures Inv(Start(first, loops, here))
  {
    var w := Start(first, loops, here);
    StartRings(first, loops, here);
    assert LinksOk(w.tcb) && TravelOk(w.tcb, w.own, w.chans, w.sending);
    hide RingsOk, LinksOk, TravelOk;
    forall k | k in first ensures first[k] in w.tcb { assert first[k] in first.Values; }
    forall k | k in w.own ensures AtHome(w.rings, w.kid, w.tcb, w.own, k) {}
    RingsKnown(w.rings, w.kid, w.tcb.Keys);
  }

  lemma {:induction false} RunInv(w: World, moves: seq<Move>)
    requires Inv(w) && Run(w, moves)
    ensures Inv(Exec(w, moves))
    decreases |moves|
  {
    hide Inv, Shaped, Allowed, Next;
    if |moves| > 0 {
      StepInv(w, moves[0]);
      RunInv(Next(w, moves[0]), moves[1..]);
    }
  }

  ghost predicate Dies(w: World, a: Move, t: nat)
    requires Shaped(w)
  {
    a.DieThd? && Current(w) == t
  }

  ghost predicate DiesIn(w: World, moves: seq<Move>, t: nat)
    requires Run(w, moves)
    decreases |moves|
  {
    |moves| > 0 && (Dies(w, moves[0], t) || DiesIn(Next(w, moves[0]), moves[1..], t))
  }

  ghost predicate Living(w: World, t: nat) {
    t in w.tcb && w.tcb[t].state != Dead
  }

  /** What a step can do to the control blocks. */
  lemma TcbStep(w: World, a: Move)
    requires Inv(w) && Allowed(w, a)
    ensures var tcb', c := Next(w, a).tcb, Current(w);
            match a
            case New(t, flag) => t !in w.tcb && tcb' == w.tcb[t := Tcb(Runnable, flag, 0, 0, 0, InUser)]
            case SndThd(ch, t) => tcb' == if t == c then w.tcb else w.tcb[t := w.tcb[t].(state := Blocked)]
            case RcvThd(ch) =>
              ch in w.chans && if w.chans[ch].flight == [] then tcb' == w.tcb
              else var t := w.chans[ch].flight[0]; t in w.tcb && tcb' == w.tcb[t := w.tcb[t].(state := Runnable)]
            case JoinThd(t) =>
              || tcb' == w.tcb
              || (w.tcb[t].state == Dead && tcb' == w.tcb - {t})
              || (t != c && w.tcb[t].state == Runnable && tcb' == Linked(w, t).tcb)
            case ResumeJoin =>
              var t := w.tcb[c].pc.target;
              t in w.tcb && w.tcb[t].state == Dead && t != c && tcb' == w.tcb[c := w.tcb[c].(pc := InUser)] - {t}
            case DieThd => tcb' == w.tcb - {c} || tcb' == Marked(w).tcb
            case _ => tcb' == w.tcb
  {
    hide RingsOk, OwnOk, Unlinked, Scan, Rotate, Without, AllKnown, Own, OnItsWay, AnotherRunnable;
    if a.ResumeJoin? { LinksResumed(w.tcb, Current(w)); }
    if a.RcvThd? && w.chans[a.ch].flight != [] { TravelTaken(w.tcb, w.own, w.chans, w.sending, a.ch); }
  }

  lemma LivesOn(w: World, a: Move, t: nat)
    requires Inv(w) && Allowed(w, a) && Living(w, t) && !Dies(w, a, t)
    ensures Living(Next(w, a), t)
  {
    hide Next, Allowed, Inv;
    TcbStep(w, a);
    CurrentRuns(w);
  }

  /** No thread is lost or doubled: whatever is created, sent, received, joined or has died, every thread
      that has not died itself is still there, in exactly one ring, once, that of the kernel thread it
      records; and the thread that runs is RUNNABLE. */
  lemma {:induction false} NoneLost(w: World, moves: seq<Move>, t: nat)
    requires Inv(w) && Run(w, moves) && Living(w, t) && !DiesIn(w, moves, t)
    ensures var w' := Exec(w, moves);
            && Living(w', t) && t in w'.kid && w'.kid[t] in w'.rings
            && (forall k :: k in w'.rings ==> multiset(w'.rings[k])[t] == if k == w'.kid[t] then 1 else 0)
            && Shaped(w') && w'.tcb[Current(w')].state == Runnable
    decreases |moves|
  {
    if |moves| > 0 {
      hide Inv, Shaped, Allowed, Next, Living, Dies;
      StepInv(w, moves[0]);
      LivesOn(w, moves[0], t);
      NoneLost(Next(w, moves[0]), moves[1..], t);
    } else {
      forall k | k in w.rings ensures Times(w.rings[k], t) == if k == w.kid[t] then 1 else 0 {
        InOneRing(w.rings, w.kid, w.tcb.Keys, t, k);
      }
      InOneRing(w.rings, w.kid, w.tcb.Keys, t, w.here);
    }
  }

  /** One ring of one thread for each kernel thread, and no thread named 0. */
  ghost predicate Starts(w: World, first: map<nat, nat>, loops: set<nat>) {
    w.here in first && Injective(first) && 0 !in first.Values && w == Start(first, loops, w.here)
  }

  lemma NoneLostFromStart(w: World, first: map<nat, nat>, loops: set<nat>, moves: seq<Move>, t: nat)
    requires Starts(w, first, loops) && t in w.tcb
    requires Run(w, moves) && !DiesIn(w, moves, t)
    ensures var w' := Exec(w, moves);
            && Living(w', t) && t in w'.kid
            && (forall k :: k in w'.rings ==> multiset(w'.rings[k])[t] == if k == w'.kid[t] then 1 else 0)
            && Shaped(w') && w'.tcb[Current(w')].state == Runnable
  {
    StartInv(first, loops, w.here);
    assert Living(w, t);
    hide Inv, Start, Exec, Run, DiesIn, Living, Injective;
    NoneLost(w, moves, t);
  }

  // ----- threads on their way -----

  /** The receives on channel ch. */
  ghost function Receives(moves: seq<Move>, ch: nat): nat {
    if |moves| == 0 then 0 else (if moves[0] == RcvThd(ch) then 1 else 0) + Receives(moves[1..], ch)
  }

  /** The receiver does not drop channel ch. */
  ghost predicate Keeps(moves: seq<Move>, ch: nat) {
    |moves| > 0 ==> moves[0] != GiveUp(ch) && Keeps(moves[1..], ch)
  }

  /** Thread t is not the running one in any state of the run. */
  ghost predicate NeverCurrent(w: World, moves: seq<Move>, t: nat)
    requires Run(w, moves)
    decreases |moves|
  {
    Current(w) != t && (|moves| > 0 ==> NeverCurrent(Next(w, moves[0]), moves[1..], t))
  }

  ghost predicate Lies(w: World, ch: nat, i: int, t: nat) {
    ch in w.chans && 0 <= i < |w.chans[ch].flight| && w.chans[ch].flight[i] == t
  }

  /** What a step can do to the channels. */
  lemma ChansStep(w: World, a: Move)
    requires Shaped(w) && Allowed(w, a)
    ensures var w', c := Next(w, a), Current(w);
            match a
            case SndThd(ch, t) =>
              || (w'.chans == w.chans && w'.sending == w.sending)
              || (t != c && w.chans[ch].open && w'.chans == w.chans && w'.sending == w.sending[c := Parcel(ch, t)])
              || (t != c && w.chans[ch].open && w'.chans == Pushed(w, ch, t).chans && w'.sending == w.sending)
            case RetrySnd =>
              || (w'.chans == w.chans && w'.sending == w.sending)
              || (w'.chans == Pushed(w, w.sending[c].ch, w.sending[c].t).chans && w'.sending == w.sending - {c})
            case RcvThd(ch) =>
              && w'.sending == w.sending
              && (w'.chans == w.chans ||
                  (|w.chans[ch].flight| > 0
                   && w'.chans == w.chans[ch := w.chans[ch].(flight := w.chans[ch].flight[1..])]))
            case NewChan(ch, capacity) => w'.sending == w.sending && w'.chans == w.chans[ch := Chan(capacity, true, [])]
            case GiveUp(ch) =>
              w'.sending == w.sending && w'.chans == w.chans[ch := Chan(w.chans[ch].capacity, false, [])]
            case _ => w'.chans == w.chans && w'.sending == w.sending
  {
    hide Unlinked, Scan, Rotate, Without, AllKnown, Own, OnItsWay, AnotherRunnable;
  }

  lemma FlightStep(w: World, a: Move, ch: nat, i: nat, t: nat)
    requires Inv(w) && Allowed(w, a) && Lies(w, ch, i, t) && a != GiveUp(ch) && (a == RcvThd(ch) ==> i > 0)
    ensures Lies(Next(w, a), ch, if a == RcvThd(ch) then i - 1 else i, t)
  {
    ChansStep(w, a);
    if a == RcvThd(ch) { TravelTaken(w.tcb, w.own, w.chans, w.sending, ch); }
    hide RingsOk, LinksOk, TravelOk, OwnOk, Unlinked, Scan, Rotate, Without, Linked, Marked;
  }

  lemma LyingIsNotCurrent(w: World, ch: nat, i: nat, t: nat)
    requires Inv(w) && Lies(w, ch, i, t)
    ensures Current(w) != t
  {
    CurrentIs(w);
    assert Carried(w.chans, w.sending, w.chans[ch].flight[i], In(ch));
  }

  /** Threads arrive in the order in which they entered the channel, and one that is still in it is never
      dispatched, whatever other threads do: as long as the receiver keeps the channel, and no more
      receives happen than there are threads ahead of it. */
  lemma {:induction false} InFlightNeverRuns(w: World, moves: seq<Move>, ch: nat, i: nat, t: nat)
    requires Inv(w) && Run(w, moves) && Lies(w, ch, i, t) && Receives(moves, ch) <= i && Keeps(moves, ch)
    ensures NeverCurrent(w, moves, t)
    ensures Lies(Exec(w, moves), ch, i - Receives(moves, ch), t)
    decreases |moves|
  {
    hide Inv, Shaped, Allowed, Next, Lies;
    LyingIsNotCurrent(w, ch, i, t);
    if |moves| > 0 {
      StepInv(w, moves[0]);
      FlightStep(w, moves[0], ch, i, t);
      InFlightNeverRuns(Next(w, moves[0]), moves[1..], ch, if moves[0] == RcvThd(ch) then i - 1 else i, t);
    }
  }

  /** On receipt a thread leaves the ring it was in, goes in just behind the receiver with the receiver's
      kernel thread on record, and can run again.  Nothing else moves. */
  lemma ArrivesBehindReceiver(w: World, ch: nat)
    requires Inv(w) && Allowed(w, RcvThd(ch)) && w.chans[ch].flight != []
    ensures var t, w' := w.chans[ch].flight[0], Next(w, RcvThd(ch));
            && t in w.tcb && Shaped(w') && Current(w') == Current(w) != t
            && (forall k :: k in w.rings ==> (t in w.rings[k] <==> k == w.kid[t]))
            && (forall k :: k in w.rings ==>
                  var left := if t in w.rings[k] then Without(w.rings[k], t) else w.rings[k];
                  w'.rings[k] == left + if k == w.here then [t] else [])
            && w'.kid == w.kid[t := w.here] && w'.tcb == w.tcb[t := w.tcb[t].(state := Runnable)]
            && w'.chans[ch].flight == w.chans[ch].flight[1..]
  {
    var t := w.chans[ch].flight[0];
    CurrentIs(w);
    TravelTaken(w.tcb, w.own, w.chans, w.sending, ch);
    assert Carried(w.chans, w.sending, t, In(ch));
    RcvInv(w, ch);
    forall k | k in w.rings ensures t in w.rings[k] <==> k == w.kid[t] { InOneRing(w.rings, w.kid, w.tcb.Keys, t, k); }
    UnlinkedAt(w.rings, w.kid, w.tcb.Keys, t, w.here);
  }

  // ----- sends that fail -----

  /** The thread is BLOCKED outside any join, and nowhere on its way. */
  ghost predicate Stranded(w: World, t: nat) {
    t in w.tcb && w.tcb[t].state == Blocked && w.tcb[t].pc == InUser && !OnItsWay(w, t)
  }

  /** The send marks the thread BLOCKED before it looks at the channel: it is on its way if and only if the
      receiver still has the channel, and stranded otherwise. */
  lemma SentIff(w: World, ch: nat, t: nat)
    requires Inv(w) && Allowed(w, SndThd(ch, t)) && t != Current(w)
    ensures var w' := Next(w, SndThd(ch, t));
            && (OnItsWay(w', t) <==> w.chans[ch].open)
            && (Stranded(w', t) <==> !w.chans[ch].open)
            && t in w'.tcb && w'.tcb[t].state == Blocked
  {
    hide RingsOk, LinksOk, TravelOk, OwnOk, Scan, Rotate;
    var w' := Next(w, SndThd(ch, t));
    if w.chans[ch].open {
      assert Carried(w'.chans, w'.sending, t, if Full(w.chans[ch]) then By(Current(w)) else In(ch));
    } else {
      assert w'.chans == w.chans && w'.sending == w.sending;
    }
  }

  /** The step sends t on a channel that its receiver has; the step receives t. */
  ghost predicate Offers(w: World, a: Move, t: nat)
    requires Shaped(w)
  {
    a.SndThd? && a.t == t && t != Current(w) && a.ch in w.chans && w.chans[a.ch].open
  }

  ghost predicate Delivers(w: World, a: Move, t: nat) {
    a.RcvThd? && Lies(w, a.ch, 0, t)
  }

  ghost predicate Received(w: World, moves: seq<Move>, t: nat)
    requires Run(w, moves)
    decreases |moves|
  {
    |moves| > 0 && (Delivers(w, moves[0], t) || Received(Next(w, moves[0]), moves[1..], t))
  }

  ghost predicate SentThenReceived(w: World, moves: seq<Move>, t: nat)
    requires Run(w, moves)
    decreases |moves|
  {
    |moves| > 0 &&
      ((Offers(w, moves[0], t) && Received(Next(w, moves[0]), moves[1..], t))
       || SentThenReceived(Next(w, moves[0]), moves[1..], t))
  }

  /** Thread t is RUNNABLE in some state of the run. */
  ghost predicate Revived(w: World, moves: seq<Move>, t: nat)
    requires Run(w, moves)
    decreases |moves|
  {
    (t in w.tcb && w.tcb[t].state == Runnable) || (|moves| > 0 && Revived(Next(w, moves[0]), moves[1..], t))
  }

  ghost predicate Waits(w: World, t: nat) {
    t in w.tcb && w.tcb[t].state == Blocked && w.tcb[t].pc == InUser
  }

  lemma WaitsOn(w: World, a: Move, t: nat)
    requires Inv(w) && Allowed(w, a) && Waits(w, t)
    ensures if Delivers(w, a, t) then t in Next(w, a).tcb && Next(w, a).tcb[t].state == Runnable
            else Waits(Next(w, a), t)
  {
    hide Next, Allowed, Inv;
    TcbStep(w, a);
    JoinerNotOwn(w);
    CurrentRuns(w);
  }

  lemma CurrentRuns(w: World)
    requires Inv(w)
    ensures Shaped(w) && w.tcb[Current(w)].state == Runnable
  {
  }

  /** A thread that is nowhere on its way stays so, unless the step sends it. */
  lemma StaysOff(w: World, a: Move, t: nat, p: Place)
    requires Shaped(w) && Allowed(w, a) && !Offers(w, a, t) && !OnItsWay(w, t)
    ensures !Carried(Next(w, a).chans, Next(w, a).sending, t, p)
  {
    ChansStep(w, a);
    hide Next, Shaped, Allowed;
    assert !Carried(w.chans, w.sending, t, p);
    if a.RetrySnd? { assert !Carried(w.chans, w.sending, t, By(Current(w))); }
  }

  lemma StrandedOn(w: World, a: Move, t: nat)
    requires Inv(w) && Allowed(w, a) && Stranded(w, t) && !Offers(w, a, t)
    ensures Stranded(Next(w, a), t) && !Delivers(w, a, t)
  {
    WaitsOn(w, a, t);
    NotDelivered(w, a, t);
    hide Next, Allowed, Carried, Sound;
    var w' := Next(w, a);
    forall p ensures !Carried(w'.chans, w'.sending, t, p) { StaysOff(w, a, t, p); }
  }

  lemma {:induction false} RevivedIffReceived(w: World, moves: seq<Move>, t: nat)
    requires Inv(w) && Run(w, moves) && Waits(w, t)
    ensures Revived(w, moves, t) <==> Received(w, moves, t)
    decreases |moves|
  {
    hide Inv, Shaped, Allowed, Next, Delivers;
    if |moves| > 0 {
      StepInv(w, moves[0]);
      WaitsOn(w, moves[0], t);
      if !Delivers(w, moves[0], t) { RevivedIffReceived(Next(w, moves[0]), moves[1..], t); }
    }
  }

  lemma {:induction false} ReceivedIfSent(w: World, moves: seq<Move>, t: nat)
    requires Run(w, moves) && SentThenReceived(w, moves, t)
    ensures Received(w, moves, t)
    decreases |moves|
  {
    hide Shaped, Allowed, Next, Delivers, Offers;
    if !(Offers(w, moves[0], t) && Received(Next(w, moves[0]), moves[1..], t)) {
      ReceivedIfSent(Next(w, moves[0]), moves[1..], t);
    }
  }

  lemma {:induction false} SentIfReceived(w: World, moves: seq<Move>, t: nat)
    requires Inv(w) && Run(w, moves) && Stranded(w, t) && Received(w, moves, t)
    ensures SentThenReceived(w, moves, t)
    decreases |moves|
  {
    NotDelivered(w, moves[0], t);
    if !Offers(w, moves[0], t) {
      StrandedOn(w, moves[0], t);
      StepInv(w, moves[0]);
      hide Inv, Shaped, Allowed, Next, Delivers, Offers, Stranded;
      SentIfReceived(Next(w, moves[0]), moves[1..], t);
    }
  }

  lemma NotDelivered(w: World, a: Move, t: nat)
    requires Stranded(w, t)
    ensures !Delivers(w, a, t)
  {
    forall ch | Lies(w, ch, 0, t) ensures Carried(w.chans, w.sending, t, In(ch)) {}
  }

  /** Over any run a stranded thread becomes RUNNABLE again if and only if it is sent, on a channel whose
      receiver still has it, and afterwards received.  Until then it is never the running one. */
  lemma StrandedRunsIff(w: World, moves: seq<Move>, t: nat)
    requires Inv(w) && Run(w, moves) && Stranded(w, t)
    ensures Revived(w, moves, t) <==> SentThenReceived(w, moves, t)
    ensures !Revived(w, moves, t) ==> NeverCurrent(w, moves, t)
  {
    hide Inv, Run, Revived, Received, SentThenReceived, NeverCurrent, OnItsWay;
    RevivedIffReceived(w, moves, t);
    if Received(w, moves, t) { SentIfReceived(w, moves, t); }
    if SentThenReceived(w, moves, t) { ReceivedIfSent(w, moves, t); }
    if !Revived(w, moves, t) { NotRevivedNeverRuns(w, moves, t); }
  }

  lemma {:induction false} NotRevivedNeverRuns(w: World, moves: seq<Move>, t: nat)
    requires Inv(w) && Run(w, moves) && !Revived(w, moves, t)
    ensures NeverCurrent(w, moves, t)
    decreases |moves|
  {
    assert w.tcb[Current(w)].state == Runnable;
    if |moves| > 0 {
      hide Inv, Shaped, Allowed, Next;
      StepInv(w, moves[0]);
      NotRevivedNeverRuns(Next(w, moves[0]), moves[1..], t);
    }
  }

  /** From the send of a thread to its receipt it is never dispatched: in the buffer, in the hands of a sender
      that waits for room, or stranded. */
  lemma SentNeverRuns(w: World, ch: nat, t: nat, moves: seq<Move>)
    requires Inv(w) && Allowed(w, SndThd(ch, t)) && t != Current(w)
    requires Run(Next(w, SndThd(ch, t)), moves)
    ensures var w' := Next(w, SndThd(ch, t));
            && (Revived(w', moves, t) <==> Received(w', moves, t))
            && (!Received(w', moves, t) ==> NeverCurrent(w', moves, t))
  {
    var w' := Next(w, SndThd(ch, t));
    StepInv(w, SndThd(ch, t));
    SentIff(w, ch, t);
    SentWaits(w, ch, t);
    hide Inv, Next, Allowed, Run, Revived, Received, NeverCurrent;
    RevivedIffReceived(w', moves, t);
    if !Received(w', moves, t) { NotRevivedNeverRuns(w', moves, t); }
  }

  lemma SentWaits(w: World, ch: nat, t: nat)
    requires Inv(w) && Allowed(w, SndThd(ch, t)) && t != Current(w)
    ensures Waits(Next(w, SndThd(ch, t)), t)
  {
    TcbStep(w, SndThd(ch, t));
  }

  /** The same for any thread that has been sent and not yet received. */
  lemma OnItsWayNeverRuns(w: World, moves: seq<Move>, t: nat)
    requires Inv(w) && Run(w, moves) && OnItsWay(w, t)
    ensures Revived(w, moves, t) <==> Received(w, moves, t)
    ensures !Received(w, moves, t) ==> NeverCurrent(w, moves, t)
  {
    assert Waits(w, t) by {
      var p :| Carried(w.chans, w.sending, t, p);
      assert Traveller(w.tcb, w.own, t);
    }
    hide Inv, Run, Revived, Received, NeverCurrent;
    RevivedIffReceived(w, moves, t);
    if !Received(w, moves, t) { NotRevivedNeverRuns(w, moves, t); }
  }

  /** The retry: whoever finds a thread stranded can send it on another, empty channel and receive it. */
  lemma RetryRuns(w: World, t: nat, ch: nat)
    requires Inv(w) && Stranded(w, t) && !Own(w.own, t)
    requires Current(w) !in w.sending && !w.tcb[Current(w)].pc.InJoin?
    requires ch in w.chans && w.chans[ch].open && w.chans[ch].flight == [] && w.chans[ch].capacity > 0
    ensures Run(w, [SndThd(ch, t), RcvThd(ch)])
    ensures var w' := Exec(w, [SndThd(ch, t), RcvThd(ch)]); t in w'.tcb && w'.tcb[t].state == Runnable
  {
    var a, b := SndThd(ch, t), RcvThd(ch);
    CurrentIs(w);
    StepInv(w, a);
    var w1 := Next(w, a);
    assert Current(w1) == Current(w) && Allowed(w1, b);
    StepInv(w1, b);
    var w2 := Next(w1, b);
    hide Next, Allowed, Inv, Stranded;
    assert [a, b][1..] == [b] && [b][1..] == [];
    assert Run(w2, []) && Exec(w2, []) == w2;
    assert Run(w1, [b]) && Exec(w1, [b]) == w2;
  }

  /** The whole story: a send on a channel that has been given up strands the thread, and a second send, on
      a channel that has not, with a receive, has it running again. */
  lemma FailedSendRetried(w: World, t: nat, shut: nat, ch: nat)
    requires Inv(w) && Allowed(w, SndThd(shut, t)) && t != Current(w) && !w.chans[shut].open
    requires ch in w.chans && w.chans[ch].open && w.chans[ch].flight == [] && w.chans[ch].capacity > 0
    ensures Stranded(Next(w, SndThd(shut, t)), t)
    ensures var moves := [SndThd(shut, t), SndThd(ch, t), RcvThd(ch)];
            Run(w, moves) && t in Exec(w, moves).tcb && Exec(w, moves).tcb[t].state == Runnable
  {
    var a := SndThd(shut, t);
    StepInv(w, a);
    SentIff(w, shut, t);
    var w1 := Next(w, a);
    assert w1 == Blocking(w, t) && Current(w1) == Current(w);
    RetryRuns(w1, t, ch);
    hide Next, Allowed, Inv, Stranded;
    assert [a, SndThd(ch, t), RcvThd(ch)][1..] == [SndThd(ch, t), RcvThd(ch)];
  }

  // ----- the links -----

  /** `struct lwt`, as far as moving it is concerned. */
  class Thread {
    const tid: nat
    const list: PsList.Link
    var state: ThreadState
    var kid: nat

    constructor (tid: nat, kid: nat)
      ensures this.tid == tid && list.id == tid && fresh(list) && Ring([list])
      ensures state == Runnable && this.kid == kid
    {
      this.tid, this.kid, state := tid, kid, Runnable;
      list := new PsList.Link(tid);
    }
  }

  ghost function Ids(s: seq<PsList.Link>): seq<nat> {
    seq(|s|, i requires 0 <= i < |s| => s[i].id)
  }

  lemma RemovedIds(s: seq<PsList.Link>, i: nat)
    requires i < |s| && forall j :: 0 <= j < i ==> s[j].id != s[i].id
    ensures s[i].id in Ids(s) && Ids(Removed(s, i)) == Without(Ids(s), s[i].id)
  {
    assert Ids(s)[i] == s[i].id;
    var j := IndexOf(Ids(s), s[i].id);
    assert forall k :: 0 <= k < j ==> Ids(s)[..j][k] == s[k].id;
  }

  /** `ps_list_add_d(ps_list_prev_d(current_thread), tmp)`. */
  method AddBehind(head: PsList.Link, l: PsList.Link, ghost ring: seq<PsList.Link>)
    requires Ring(ring) && ring[0] == head && l !in ring
    modifies ring, l
    ensures Ring(ring + [l]) && head.p == l
  {
    ghost var k := |ring| - 1;
    Last(ring);
    hide Ring;
    Neighbours(ring, k);
    Add(head.p, l, ring, k);
    assert Inserted(ring, k, l) == ring + [l];
    Last(ring + [l]);
  }

  /** `ps_list_rem_d(tmp)`. */
  method TakeOut(l: PsList.Link, ghost source: seq<PsList.Link>, ghost i: nat, ghost target: seq<PsList.Link>)
    requires Ring(source) && i < |source| && source[i] == l && Ring(target)
    requires if source == target then i > 0 else forall l :: l in source ==> l !in target
    modifies source
    ensures l !in Removed(source, i) && (|source| > 1 ==> Ring(Removed(source, i)))
    ensures source != target ==> Ring(target) && l !in target
    ensures var ring := if source == target then Removed(source, i) else target;
            |ring| > 0 && ring[0] == target[0]
  {
    assert |target| > 0;
    hide Ring;
    Neighbours(source, i);
    NotIn(source, i);
    Rem(l, source, i);
    if source != target { Kept(target); }
  }

  /** `lwt_rcv_thd` once the channel has delivered tmp.  `source` is the ring that tmp is in, `target`
      the receiver's ring from the receiver on; they may be the same ring. */
  method Receive(tmp: Thread, current: Thread, ghost source: seq<PsList.Link>, ghost i: nat,
                 ghost target: seq<PsList.Link>) returns (ghost left: seq<PsList.Link>, ghost joined: seq<PsList.Link>)
    requires Ring(source) && i < |source| && source[i] == tmp.list
    requires Ring(target) && target[0] == current.list && tmp != current
    requires source != target ==> forall l :: l in source ==> l !in target
    requires source == target ==> i > 0
    requires tmp.list.id == tmp.tid && forall j :: 0 <= j < i ==> source[j].id != tmp.tid
    modifies tmp`kid, tmp`state, source, target
    ensures tmp.kid == current.kid && tmp.state == Runnable
    ensures tmp.tid in Ids(source) && Ids(left) == Without(Ids(source), tmp.tid)
    ensures Ring(joined) && (source != target && |source| > 1 ==> Ring(left))
    ensures Ids(joined) == (if source == target then Ids(left) else Ids(target)) + [tmp.tid]
    ensures joined[0] == current.list && current.list.p == tmp.list
  {
    hide Ring;
    tmp.kid := current.kid;
    left := Removed(source, i);
    RemovedIds(source, i);
    TakeOut(tmp.list, source, i, target);
    ghost var ring := if source == target then left else target;
    label Out:
    AddBehind(current.list, tmp.list, ring);
    if source != target && |source| > 1 {
      assert forall l :: l in left ==> l in source && l != tmp.list;
      Kept@Out(left);
    }
    joined := ring + [tmp.list];
    tmp.state := Runnable;
  }

  lemma NotIn(s: seq<PsList.Link>, i: nat)
    requires Ring(s) && i < |s|
    ensures s[i] !in Removed(s, i)
  {
  }

  lemma Last(s: seq<PsList.Link>)
    requires Ring(s)
    ensures |s| > 0 && s[0].p == s[|s| - 1]
  {
  }
}
