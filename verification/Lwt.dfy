/** lwt.c on the heap: thread control blocks linked into a circular run ring, and the global current
    thread and counters.  Each operation is proved to take the step that LwtModel says it takes.
  */
module Lwt {
  import opened PsList
  import opened Options
  import opened LwtModel
  import opened LwtInvariant

  /** `struct lwt`.  `pc` stands for the saved context. */
  class Thread {
    const tid: nat
    const list: PsList.Link
    var state: ThreadState
    var flag: Flag
    var ret: int
    var joinedfrom: Thread?
    var joiningto: Thread?
    var pc: Pc

    /** `joinedfrom` starts out null: the code relies on fresh memory for that. */
    constructor (tid: nat, flag: Flag)
      ensures this.tid == tid && list.id == tid && list.n == list && list.p == list && fresh(list)
      ensures View() == Tcb(Runnable, flag, 0, 0, 0, InUser)
      ensures joinedfrom == null
    {
      this.tid := tid;
      this.flag := flag;
      list := new PsList.Link(tid);
      state, ret, joinedfrom, joiningto, pc := Runnable, 0, null, null, InUser;
    }

    ghost function View(): Tcb
      reads this
    {
      Tcb(state, flag,
          if joinedfrom == null then 0 else joinedfrom.tid,
          if joiningto == null then 0 else joiningto.tid, ret, pc)
    }
  }

  class Scheduler {
    var current: Thread
    /** The control block around each link (`ps_container`), freed ones included. */
    var threads: map<nat, Thread>
    var runnable: int
    var blocked: int
    var zombies: int
    var tidCounter: nat
    /** What the heap stands for, the links of the ring from the current thread on, and the number of
        LWT_NOJOIN threads that have died. */
    ghost var model: LwtModel.Lwt
    ghost var ring: seq<PsList.Link>
    ghost var gone: nat
    ghost var repr: set<Thread>

    /** Thread t's control block holds c, and its `joinedfrom` is a listed block. */
    ghost predicate Block(t: nat, c: Tcb)
      requires t in threads
      reads `threads, `repr, repr
    {
      var b := threads[t];
      && b in repr && b.tid == t && b.list.id == t
      && b.View() == c
      && (b.joinedfrom != null ==> b.joinedfrom.tid in threads && threads[b.joinedfrom.tid] == b.joinedfrom)
    }

    ghost predicate Blocks(tcb: map<nat, Tcb>)
      reads `threads, `repr, repr
    {
      && tcb.Keys <= threads.Keys
      && (forall t {:trigger Block(t, tcb[t])} :: t in tcb ==> Block(t, tcb[t]))
    }

    /** The links r belong to listed blocks with these tids. */
    ghost predicate Links(r: seq<PsList.Link>, ids: seq<nat>)
      reads `threads
    {
      && |r| == |ids|
      && (forall i :: 0 <= i < |r| ==> r[i].id == ids[i] && ids[i] in threads && threads[ids[i]].list == r[i])
    }

    /** Everything but the current thread. */
    ghost predicate Wired()
      reads `threads, `ring, `repr, `model, `runnable, `blocked, `zombies, `tidCounter, repr, ring
    {
      && Ring(ring) && Links(ring, model.ring) && Blocks(model.tcb) && Shaped(model)
      && runnable == model.runnable && blocked == model.blocked && zombies == model.zombies
      && tidCounter == model.tidCounter
      && (forall t :: t in threads ==> 1 <= t <= tidCounter)
    }

    /** The current thread is at the head of the ring. */
    ghost predicate AtHead()
      reads `current, `threads, `ring
    {
      |ring| > 0 && ring[0].id in threads && current == threads[ring[0].id]
    }

    ghost predicate Valid()
      reads this, repr, ring
    {
      Wired() && AtHead() && Inv(model, gone)
    }

    /** `lwt_init`. */
    constructor (flag: Flag)
      ensures Valid() && model == Init(flag) && gone == 0
      ensures fresh(repr) && fresh(ring)
    {
      var t := new Thread(INITIAL, flag);
      current := t;
      threads := map[INITIAL := t];
      runnable, blocked, zombies, tidCounter := 1, 0, 0, 2;
      model := Init(flag);
      ring := [t.list];
      gone := 0;
      repr := {t};
      InitInv(flag);
      new;
      assert Block(INITIAL, model.tcb[INITIAL]);
    }

    /** `ps_list_next_d`. */
    function NextThread(t: Thread): Thread
      requires t.list.n.id in threads
      reads `threads, t.list
    {
      threads[t.list.n.id]
    }

    /** Ring position k, position |ring| being the head again. */
    ghost function At(k: nat): nat
      requires k <= |model.ring| && |model.ring| > 0
      reads `model
    {
      if k == |model.ring| then model.ring[0] else model.ring[k]
    }

    /** `current_thread = ps_list_next_d(current_thread)`. */
    method Hop(ghost k: nat)
      requires Wired() && k < |ring| && current == threads[At(k)]
      modifies `current
      ensures At(k + 1) in threads && current == threads[At(k + 1)]
    {
      assert ring[k].id == At(k) && current.list == ring[k];
      assert current.list.n == if k + 1 == |ring| then ring[0] else ring[k + 1];
      current := NextThread(current);
    }

    /** The do-while loop of `__lwt_schedule` and `lwt_die`.  It ends because some thread ahead, or the
        current one after a whole lap, is RUNNABLE. */
    method ScanRing(ghost e: nat) returns (ghost k: nat)
      requires Wired() && AtHead() && 1 <= e <= |ring|
      requires At(e) in model.tcb && model.tcb[At(e)].state == Runnable
      modifies `current
      ensures Wired() && k == Scan(model.ring, model.tcb, 1)
      ensures At(k) in threads && current == threads[At(k)]
    {
      hide Ring;
      k := 1;
      Hop(0);
      assert Block(At(1), model.tcb[At(1)]);
      while current.state != Runnable
        invariant 1 <= k <= e
        invariant At(k) in threads && Block(At(k), model.tcb[At(k)]) && current == threads[At(k)]
        invariant Scan(model.ring, model.tcb, 1) == Scan(model.ring, model.tcb, k)
        decreases e - k
      {
        Hop(k);
        k := k + 1;
        assert Block(At(k), model.tcb[At(k)]);
      }
    }

    lemma LinksRotated(r: seq<PsList.Link>, ids: seq<nat>, k: nat)
      requires Links(r, ids) && k <= |r|
      ensures Links(r[k..] + r[..k], Rotate(ids, k))
    {
    }

    /** The ring is read from position k on. */
    ghost method Reread(k: nat)
      requires Wired() && k <= |ring| && At(k) in threads && current == threads[At(k)]
      modifies `ring, `model
      ensures Wired() && AtHead() && forall l :: l in ring ==> l in old(ring)
      ensures model == old(model).(ring := Rotate(old(model).ring, k))
    {
      hide Ring, Shaped;
      Rotated(ring, k);
      LinksRotated(ring, model.ring, k);
      ShapedRotated(model, k);
      var r, m := ring[k..] + ring[..k], model.(ring := Rotate(model.ring, k));
      assert r[0].id == At(k);
      ring, model := r, m;
    }

    lemma RunnableAhead() returns (e: nat)
      requires Core(model)
      ensures 1 <= e <= |model.ring| && At(e) in model.tcb && model.tcb[At(e)].state == Runnable
    {
      ScanEnds(model);
      e := Scan(model.ring, model.tcb, 1);
      RotateShape(model.ring, e);
    }

    /** `__lwt_schedule`. */
    method Schedule()
      requires Wired() && AtHead()
      requires Core(model) && Counted(model, gone) && !model.tcb[Cur(model)].pc.InJoin?
      modifies `current, `ring, `model
      ensures Valid() && model == LwtModel.Schedule(old(model))
    {
      hide Ring, Shaped, Core;
      ScheduleInv(model, gone);
      if runnable == 0 {
        return;
      }
      ghost var e := RunnableAhead();
      ghost var k := ScanRing(e);
      Reread(k);
    }

    // ----- writing control blocks -----

    ghost predicate Listed(t: Thread)
      reads `threads
    {
      t.tid in threads && threads[t.tid] == t
    }

    lemma LinksRemoved(r: seq<PsList.Link>, ids: seq<nat>, i: nat)
      requires Links(r, ids) && i < |r|
      ensures Links(Removed(r, i), ids[..i] + ids[i + 1..])
    {
    }

    lemma BlocksWithout(tcb: map<nat, Tcb>, t: nat)
      requires Blocks(tcb)
      ensures Blocks(tcb - {t})
    {
      forall u | u in tcb - {t} ensures Block(u, (tcb - {t})[u]) { assert Block(u, tcb[u]); }
    }

    /** `ps_list_rem_d`, as seen by the ring. */
    method TakeOut(l: PsList.Link, ghost i: nat)
      requires Ring(ring) && Links(ring, model.ring) && 0 < i < |ring| && ring[i] == l
      modifies `ring, ring
      ensures Ring(ring) && |ring| > 0 && ring[0] == old(ring[0])
      ensures Links(ring, old(model.ring[..i] + model.ring[i + 1..]))
    {
      hide Ring;
      LinksRemoved(ring, model.ring, i);
      Neighbours(ring, i);
      Rem(l, ring, i);
      ring := Removed(ring, i);
    }

    /** `ps_list_rem_d(t)` for a thread that leaves the model with it. */
    method Unlink(t: Thread)
      requires Wired() && Listed(t) && t.tid in model.tcb && t.tid != INITIAL && t.tid != Cur(model)
      modifies `ring, `model, ring
      ensures Wired() && model == Reap(old(model), t.tid)
      ensures |ring| > 0 && ring[0] == old(ring[0])
    {
      hide Ring, Shaped;
      InRing(model, t.tid);
      ghost var i := IndexOf(model.ring, t.tid);
      ReapShape(model, t.tid);
      BlocksWithout(model.tcb, t.tid);
      assert Block(t.tid, model.tcb[t.tid]);
      TakeOut(t.list, i);
      model := Reap(model, t.tid);
    }

    // ----- the operations -----

    /** `ps_list_add_d(ps_list_prev_d(current_thread), t)`: just behind the current thread. */
    method PutBehind(l: PsList.Link)
      requires Ring(ring) && Links(ring, model.ring) && AtHead() && l !in ring
      requires l.id in threads && threads[l.id].list == l
      modifies `ring, ring, l
      ensures Ring(ring) && Links(ring, model.ring + [l.id]) && AtHead() && ring == old(ring) + [l]
    {
      ghost var k := |ring| - 1;
      Neighbours(ring, k);
      assert ring[0].p == ring[k] && current.list == ring[0];
      hide Ring;
      var prev := current.list.p;
      Neighbours(ring, k);
      Add(prev, l, ring, k);
      assert Inserted(ring, k, l) == ring + [l];
      ring := ring + [l];
    }

    /** A control block with the next tid, not in the ring yet. */
    method NewBlock(flag: Flag) returns (b: Thread)
      requires Wired() && AtHead()
      modifies `threads, `repr, `tidCounter, `model
      ensures Wired() && AtHead() && model == old(model).(tidCounter := old(model).tidCounter + 1)
      ensures fresh(b) && fresh(b.list) && Listed(b) && repr == old(repr) + {b}
      ensures b.tid == b.list.id == model.tidCounter && b.tid !in model.tcb
      ensures Block(b.tid, Tcb(Runnable, flag, 0, 0, 0, InUser))
      ensures b.flag == flag && b.state == Runnable
    {
      hide Ring, Shaped;
      SkipTid(model);
      tidCounter := tidCounter + 1;
      b := new Thread(tidCounter, flag);
      threads := threads[b.tid := b];
      repr := repr + {b};
      forall u | u in model.tcb ensures Block(u, model.tcb[u]) { assert old(Block(u, model.tcb[u])); }
      model := model.(tidCounter := tidCounter);
    }

    lemma BlocksWith(tcb: map<nat, Tcb>, t: nat, c: Tcb)
      requires Blocks(tcb) && t in threads && Block(t, c)
      ensures Blocks(tcb[t := c])
    {
      var tcb' := tcb[t := c];
      forall u | u in tcb' ensures Block(u, tcb'[u]) { if u != t { assert Block(u, tcb[u]); } }
    }

    /** `lwt_create`. */
    method Create(flag: Flag) returns (t: Thread)
      requires Valid() && Allowed(model, LwtModel.Create(flag))
      modifies this, ring
      ensures Valid() && model == Next(old(model), LwtModel.Create(flag))
      ensures fresh(t) && Listed(t) && t.tid == model.tidCounter && repr == old(repr) + {t}
      ensures ring == old(ring) + [t.list] && fresh(t.list)
      ensures t.flag == flag && t.state == Runnable
    {
      hide Ring, Shaped, Core, Counted, Block, Blocks, Links;
      StepInv(model, LwtModel.Create(flag), gone);
      t := NewBlock(flag);
      BlocksWith(model.tcb, t.tid, Tcb(Runnable, flag, 0, 0, 0, InUser));
      runnable := runnable + 1;
      zombies := zombies + 1;
      PutBehind(t.list);
      model := CreateStep(old(model), flag);
    }

    /** The directed branch of `lwt_yield`. */
    method Directed(t: Thread)
      requires Wired() && AtHead() && Listed(t) && t.tid in model.tcb
      modifies `current, `ring, `model
      ensures Wired() && AtHead() && model == Direct(old(model), t.tid)
    {
      hide Ring, Shaped;
      InRing(model, t.tid);
      assert Block(t.tid, model.tcb[t.tid]);
      if t.state == Runnable {
        current := t;
        Reread(IndexOf(model.ring, t.tid));
      }
    }

    /** `lwt_yield(t)`. */
    method YieldTo(t: Thread)
      requires Valid() && Listed(t) && Allowed(model, LwtModel.YieldTo(t.tid))
      modifies `current, `ring, `model
      ensures Valid() && model == Next(old(model), LwtModel.YieldTo(t.tid))
    {
      hide Ring, Shaped, Core, Counted;
      StepInv(model, LwtModel.YieldTo(t.tid), gone);
      Directed(t);
    }

    /** `lwt_yield(LWT_NULL)`. */
    method Yield()
      requires Valid() && Allowed(model, LwtModel.Yield)
      modifies `current, `ring, `model
      ensures Valid() && model == Next(old(model), LwtModel.Yield)
    {
      Schedule();
    }

    lemma HasBlock(t: Thread)
      requires Blocks(model.tcb) && Listed(t) && t.tid in model.tcb
      ensures Block(t.tid, model.tcb[t.tid]) && t in repr && t.View() == model.tcb[t.tid]
    {
      assert Block(t.tid, model.tcb[t.tid]);
    }

    lemma CurBlock()
      requires Wired() && AtHead()
      ensures current.tid == Cur(model) && current.tid in model.tcb && Listed(current) && current.list == ring[0]
      ensures Block(current.tid, model.tcb[current.tid]) && current in repr
    {
      assert Block(Cur(model), model.tcb[Cur(model)]);
    }

    // ----- join -----

    /** The counters move. */
    method Count(r: int, b: int, z: int)
      requires Wired() && AtHead()
      modifies `runnable, `blocked, `zombies, `model
      ensures Wired() && AtHead()
      ensures var m := old(model);
              model == m.(runnable := m.runnable + r, blocked := m.blocked + b, zombies := m.zombies + z)
    {
      hide Ring, Links, Blocks;
      runnable := runnable + r;
      blocked := blocked + b;
      zombies := zombies + z;
      model := model.(runnable := runnable, blocked := blocked, zombies := zombies);
    }

    /** Only control block t has changed. */
    twostate lemma OthersHold(t: Thread)
      requires old(Blocks(model.tcb)) && old(Listed(t)) && old(t.tid in model.tcb)
      requires unchanged(`threads, `repr, `model)
      requires forall x :: x in repr && x != t ==> unchanged(x)
      requires t.joinedfrom == old(t.joinedfrom) || (t.joinedfrom != null && Listed(t.joinedfrom))
      ensures Block(t.tid, t.View())
      ensures forall u {:trigger Block(u, model.tcb[u])} :: u in model.tcb && u != t.tid ==> Block(u, model.tcb[u])
    {
      assert old(Block(t.tid, model.tcb[t.tid]));
      forall u {:trigger Block(u, model.tcb[u])} | u in model.tcb && u != t.tid ensures Block(u, model.tcb[u]) {
        assert old(Block(u, model.tcb[u]));
      }
    }

    /** The model takes over what control block t now holds. */
    ghost method Restored(t: Thread)
      requires Ring(ring) && Links(ring, model.ring) && Shaped(model) && AtHead()
      requires runnable == model.runnable && blocked == model.blocked && zombies == model.zombies
      requires tidCounter == model.tidCounter && forall t :: t in threads ==> 1 <= t <= tidCounter
      requires Listed(t) && t.tid in model.tcb && Block(t.tid, t.View()) && model.tcb.Keys <= threads.Keys
      requires forall u {:trigger Block(u, model.tcb[u])} :: u in model.tcb && u != t.tid ==> Block(u, model.tcb[u])
      modifies `model
      ensures Wired() && AtHead() && model == Set(old(model), t.tid, t.View())
    {
      hide Ring, Shaped, Links;
      SameKeys(model, t.tid, t.View());
      ghost var m := Set(model, t.tid, t.View());
      forall u | u in m.tcb ensures Block(u, m.tcb[u]) {
        if u != t.tid { assert Block(u, model.tcb[u]); }
      }
      model := m;
    }

    /** `current_thread->joiningto = t`. */
    method SetJoiningTo(t: Thread)
      requires Wired() && AtHead() && Listed(t) && t.tid in model.tcb
      modifies `model, current`joiningto
      ensures Wired() && AtHead()
      ensures model == Set(old(model), Cur(old(model)), old(model).tcb[Cur(old(model))].(joiningTo := t.tid))
    {
      hide Ring, Shaped, Links;
      CurBlock();
      current.joiningto := t;
      OthersHold(current);
      Restored(current);
    }

    /** `t->joinedfrom = current_thread`. */
    method SetJoinedFrom(t: Thread)
      requires Wired() && AtHead() && Listed(t) && t.tid in model.tcb
      modifies `model, t`joinedfrom
      ensures Wired() && AtHead()
      ensures model == Set(old(model), t.tid, old(model).tcb[t.tid].(joinedFrom := Cur(old(model))))
    {
      hide Ring, Shaped, Links;
      CurBlock();
      assert Block(t.tid, model.tcb[t.tid]);
      t.joinedfrom := current;
      OthersHold(t);
      Restored(t);
    }

    /** `current_thread->state = BLOCKED`, on the way into the join loop. */
    method SetBlocked(t: Thread)
      requires Wired() && AtHead() && t.tid in model.tcb
      modifies `model, current`state, current`pc
      ensures Wired() && AtHead() && model == BlockCur(old(model), t.tid)
    {
      hide Ring, Shaped, Links;
      CurBlock();
      current.state := Blocked;
      current.pc := InJoin(t.tid);
      OthersHold(current);
      Restored(current);
    }

    /** Back in the caller of `lwt_join`. */
    method SetUser()
      requires Wired() && AtHead()
      modifies `model, current`pc
      ensures Wired() && AtHead()
      ensures model == Set(old(model), Cur(old(model)), old(model).tcb[Cur(old(model))].(pc := InUser))
    {
      hide Ring, Shaped, Links;
      CurBlock();
      current.pc := InUser;
      OthersHold(current);
      Restored(current);
    }

    /** One test of `while (current_thread->state == BLOCKED)`, with what follows it up to the next
        point where another thread runs or the join returns. */
    method JoinLoop(t: Thread) returns (done: bool, ret: int)
      requires Wired() && AtHead() && Listed(t) && t.tid in model.tcb && t.tid != Cur(model)
      requires model.tcb[Cur(model)].pc == InJoin(t.tid)
      requires model.tcb[Cur(model)].state != Blocked ==> t.tid != INITIAL
      modifies this, ring, repr
      ensures Wired() && AtHead() && model == LwtModel.JoinLoop(old(model))
      ensures done <==> old(model).tcb[Cur(old(model))].state != Blocked
      ensures done ==> ret == old(model).tcb[t.tid].ret
      ensures gone == old(gone)
    {
      hide Ring, Shaped, Links;
      CurBlock();
      assert Block(t.tid, model.tcb[t.tid]);
      if current.state == Blocked {
        Count(-1, 1, 0);
        Directed(t);
        return false, 0;
      }
      SetUser();
      Count(1, -1, 0);
      Count(-1, 0, -1);
      ret := t.ret;
      Unlink(t);
      done := true;
    }

    /** The two pointer assignments at the start of a join. */
    method SetLinks(t: Thread)
      requires Wired() && AtHead() && Listed(t) && t.tid in model.tcb
      modifies `model, current, t
      ensures Wired() && AtHead() && model == LinkJoin(old(model), t.tid)
    {
      hide Ring, Shaped, Links, Blocks;
      LinkShape(model, t.tid);
      SetJoiningTo(t);
      SetJoinedFrom(t);
    }

    /** `lwt_join` of a thread that has already died. */
    method JoinDead(t: Thread) returns (ret: int)
      requires Wired() && AtHead() && Listed(t) && t.tid in model.tcb && t.tid != INITIAL && t.tid != Cur(model)
      modifies this, ring, repr
      ensures Wired() && AtHead() && gone == old(gone)
      ensures Shaped(LinkJoin(old(model), t.tid))
      ensures var s := old(model);
              model == Reap(LinkJoin(s, t.tid).(zombies := s.zombies - 1, runnable := s.runnable - 1), t.tid)
      ensures ret == old(model).tcb[t.tid].ret
    {
      hide Ring, Shaped, Links, LinkJoin;
      LinkShape(model, t.tid);
      LinkFields(model, t.tid);
      CurBlock();
      HasBlock(t);
      SetLinks(t);
      Count(-1, 0, -1);
      assert Block(t.tid, model.tcb[t.tid]);
      ret := t.ret;
      Unlink(t);
    }

    /** `lwt_join` of a live thread, up to the first yield of its loop. */
    method JoinLive(t: Thread)
      requires Wired() && AtHead() && Listed(t) && t.tid in model.tcb && t.tid != Cur(model)
      modifies this, ring, repr
      ensures Wired() && AtHead() && gone == old(gone)
      ensures Shaped(LinkJoin(old(model), t.tid)) && Shaped(BlockCur(LinkJoin(old(model), t.tid), t.tid))
      ensures t.tid in BlockCur(LinkJoin(old(model), t.tid), t.tid).tcb
      ensures model == LwtModel.JoinLoop(BlockCur(LinkJoin(old(model), t.tid), t.tid))
    {
      hide Ring, Shaped, Links, LinkJoin;
      LinkShape(model, t.tid);
      CurBlock();
      HasBlock(t);
      SetLinks(t);
      SameKeys(model, Cur(model), model.tcb[Cur(model)].(state := Blocked, pc := InJoin(t.tid)));
      SetBlocked(t);
      var _, _ := JoinLoop(t);
    }

    /** `lwt_join` up to its return, or to the yield of its first iteration.  The result 0 is the NULL
        of the LWT_NOJOIN case. */
    method Join(t: Thread) returns (done: bool, ret: int)
      requires Valid() && Listed(t) && Allowed(model, LwtModel.Join(t.tid))
      modifies this, ring, repr
      ensures Valid() && model == Next(old(model), LwtModel.Join(t.tid))
      ensures done <==> old(model).tcb[t.tid].flag == NoJoin || old(model).tcb[t.tid].state == Dead
      ensures old(model).tcb[t.tid].flag == NoJoin ==> ret == 0
      ensures var r := Reaped(old(model), LwtModel.Join(t.tid)); r.Some? ==> ret == r.value.1
    {
      hide Ring, Links, Counted, Shaped, Core, LinkJoin, BlockCur, JoinStep, Block, Blocks;
      JoinCases(model, t.tid, gone);
      StepInv(model, LwtModel.Join(t.tid), gone);
      HasBlock(t);
      if t.flag == NoJoin {
        return true, 0;
      }
      if t.state == Dead {
        ret := JoinDead(t);
        return true, ret;
      }
      JoinLive(t);
      return false, 0;
    }

    /** A blocked `lwt_join` continues: t is the local variable of its frame.  It returns at once, with the
        value the target died with. */
    method Resume(t: Thread) returns (ret: int)
      requires Valid() && Listed(t) && Allowed(model, LwtModel.Resume)
      requires model.tcb[Cur(model)].pc == InJoin(t.tid)
      modifies this, ring, repr
      ensures Valid() && model == Next(old(model), LwtModel.Resume)
      ensures Reaped(old(model), LwtModel.Resume) == Some((t.tid, ret))
    {
      hide Ring, Links, Counted, Shaped, Core, Block, Blocks;
      StepInv(model, LwtModel.Resume, gone);
      ResumeFacts(model, gone);
      ghost var done;
      done, ret := JoinLoop(t);
    }

    // ----- die -----

    /** `current_thread->state = DEAD` and, at the end, `current_thread->ret = data`. */
    method SetDead(v: int)
      requires Wired() && AtHead()
      modifies `model, current`state, current`pc, current`ret
      ensures Wired() && AtHead()
      ensures var s := old(model);
              model == Set(s, Cur(s), s.tcb[Cur(s)].(state := Dead, ret := v, pc := Exited))
    {
      hide Ring, Shaped, Links;
      CurBlock();
      current.state := Dead;
      current.ret := v;
      current.pc := Exited;
      OthersHold(current);
      Restored(current);
    }

    /** `current_thread->joinedfrom->state = RUNNABLE`. */
    method WakeJoiner(j: Thread)
      requires Wired() && AtHead() && Listed(j) && j.tid in model.tcb
      modifies `model, j`state
      ensures Wired() && AtHead()
      ensures model == Set(old(model), j.tid, old(model).tcb[j.tid].(state := Runnable))
    {
      hide Ring, Shaped;
      HasBlock(j);
      j.state := Runnable;
      OthersHold(j);
      Restored(j);
    }

    /** The part of `lwt_die` before the yield, for a joinable thread. */
    method MarkDead(v: int)
      requires Wired() && AtHead() && LwtModel.Linked(model, Cur(model))
      modifies `model, repr
      ensures Wired() && AtHead() && model == Mark(old(model), v)
    {
      hide Ring, Shaped, Links;
      MarkIs(model, v);
      CurBlock();
      SetDead(v);
      CurBlock();
      if current.joinedfrom != null {
        HasBlock(current.joinedfrom);
        WakeJoiner(current.joinedfrom);
      }
    }

    /** `lwt_die` of a LWT_NOJOIN thread: scan first, then unlink; the block is not freed. */
    method LeaveRing()
      requires Wired() && AtHead() && Core(model)
      requires model.tcb[Cur(model)].flag == NoJoin && Cur(model) != INITIAL
      modifies `current, `ring, `model, ring
      ensures Wired() && AtHead() && model == Leave(old(model))
    {
      hide Ring, Shaped, Core, Block, Blocks;
      CurBlock();
      NoJoinPicksAnother(model);
      var tmp := current;
      ghost var e := RunnableAhead();
      ghost var k := ScanRing(e);
      HeadElsewhere(model, k);
      Reread(k);
      Unlink(tmp);
    }

    /** `lwt_die`. */
    method Die(v: int)
      requires Valid() && Allowed(model, LwtModel.Die(v))
      modifies this, ring, repr
      ensures Valid() && model == Next(old(model), LwtModel.Die(v))
    {
      hide Ring, Links, Counted, Shaped, Core, Block, Blocks, Mark, Leave, LwtModel.Linked;
      StepInv(model, LwtModel.Die(v), gone);
      DieFacts(model, v, gone);
      CurBlock();
      HasBlock(current);
      if current.flag == NoJoin {
        LeaveRing();
        gone := gone + 1;
      } else {
        MarkDead(v);
        Schedule();
      }
    }
  }
}
