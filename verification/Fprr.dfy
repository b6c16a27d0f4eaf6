/** sl.c and sl_mod_fprr.c on the heap: 32 circular ready lists with their heads, and the thread blocks
    linked into them.  Each operation is proved to take the step that SlModel says it takes.
  */
module Fprr {
  import opened PsList
  import opened Options
  import opened SlModel
  import opened SlInvariant

  /** `struct sl_thd_policy` with the `struct sl_thd` inside it.  The ghost fields record what has been
      done to the thread so far. */
  class Thread {
    const tid: nat
    const list: PsList.Link
    var state: SlState
    var priority: nat
    ghost var placed: bool
    ghost var blocks: nat
    ghost var wakeups: nat

    /** `sl_thd_alloc_init` and `sl_mod_thd_create`. */
    constructor (tid: nat)
      ensures this.tid == tid && list.id == tid && fresh(list) && Ring([list])
      ensures View() == Thd(Runnable, LOWEST, false, 0, 0)
    {
      this.tid := tid;
      list := new PsList.Link(tid);
      state, priority := Runnable, LOWEST;
      placed, blocks, wakeups := false, 0, 0;
    }

    ghost function View(): Thd
      reads this
    {
      Thd(state, priority, placed, blocks, wakeups)
    }
  }

  class Policy {
    /** The list heads `threads[]`; a head's id names no thread. */
    const heads: seq<PsList.Link>
    /** The thread block around each link (`ps_container`), which is also the lookup by tid. */
    var threads: map<nat, Thread>
    /** What the heap stands for, and each circular list from its head on. */
    ghost var model: Sl
    ghost var rings: seq<seq<PsList.Link>>
    ghost var repr: set<Thread>
    ghost var links: set<PsList.Link>

    ghost predicate Heads() {
      && |heads| == NPRIOS
      && (forall i :: 0 <= i < NPRIOS ==> heads[i].id == 0)
      && (forall i, j :: 0 <= i < j < NPRIOS ==> heads[i] != heads[j])
    }

    ghost predicate Holds(t: nat, c: Thd)
      reads `threads, `repr, `links, repr
    {
      && t in threads && t > 0 && threads[t] in repr && threads[t].tid == t
      && threads[t].list.id == t && threads[t].list in links
      && threads[t].View() == c
    }

    ghost predicate Blocks(thd: map<nat, Thd>)
      reads `threads, `repr, `links, repr
    {
      threads.Keys == thd.Keys && forall t {:trigger Holds(t, thd[t])} :: t in thd ==> Holds(t, thd[t])
    }

    /** The links r are head i and then the links of the threads q. */
    ghost predicate Named(r: seq<PsList.Link>, i: nat, q: seq<nat>)
      requires i < |heads|
      reads `threads, `links
    {
      && |r| == |q| + 1 && r[0] == heads[i] && r[0] in links
      && (forall k :: 0 <= k < |q| ==>
            q[k] in threads && threads[q[k]].list == r[k + 1] && r[k + 1].id == q[k] && r[k + 1] in links)
    }

    ghost predicate Names(rs: seq<seq<PsList.Link>>, qs: seq<seq<nat>>)
      requires Heads()
      reads `threads, `links
    {
      && |rs| == NPRIOS && |qs| == NPRIOS
      && (forall i {:trigger Named(rs[i], i, qs[i])} :: 0 <= i < NPRIOS ==> Named(rs[i], i, qs[i]))
    }

    ghost predicate AllRings()
      reads `rings, `links, links
    {
      forall i {:trigger rings[i]} :: 0 <= i < |rings| ==>
        (forall l :: l in rings[i] ==> l in links) && Ring(rings[i])
    }

    /** A thread that is in no queue is linked to itself. */
    ghost predicate Lone(t: nat)
      reads `threads, `links, `model, links
    {
      t in threads && threads[t].list in links && (Queued(model, t) || Ring([threads[t].list]))
    }

    ghost predicate Wired()
      reads this, repr, links
    {
      && Heads() && Shaped(model)
      && Blocks(model.thd) && Names(rings, model.queues) && AllRings()
      && (forall t {:trigger Lone(t)} :: t in model.thd ==> Lone(t))
      && AllApart(model)
    }

    ghost predicate Valid()
      reads this, repr, links
    {
      Wired() && Inv(model)
    }

    // ----- the lists -----

    /** Ring j shares no link with s. */
    ghost predicate Clear(j: nat, s: seq<PsList.Link>)
      requires j < |rings|
      reads `rings
    {
      forall l :: l in rings[j] ==> l !in s
    }

    /** All rings but `at` share no link with s. */
    ghost predicate OthersClear(at: Option<nat>, s: seq<PsList.Link>)
      reads `rings
    {
      forall j: nat {:trigger Clear(j, s)} :: j < |rings| && at != Some(j) ==> Clear(j, s)
    }

    lemma RingsApart(i: nat, j: nat)
      requires Heads() && Names(rings, model.queues) && i < NPRIOS && j < NPRIOS && i != j
      requires Blocks(model.thd) && Apart(model, i) && Apart(model, j)
      ensures Clear(i, rings[j])
    {
      hide Ring, Distinct;
      assert Named(rings[i], i, model.queues[i]) && Named(rings[j], j, model.queues[j]);
      forall l | l in rings[i] ensures l !in rings[j] {
        var k :| 0 <= k < |rings[i]| && rings[i][k] == l;
        if k == 0 {
          HeadOnly(l, j);
        } else {
          var t := model.queues[i][k - 1];
          assert t in model.queues[i] && l.id == t;
          assert Holds(t, model.thd[t]);
          ThreadOnly(t, l, j);
        }
      }
    }

    /** A link without a thread is in ring j only as its head. */
    lemma HeadOnly(l: PsList.Link, j: nat)
      requires Heads() && j < NPRIOS && |rings| == NPRIOS && |model.queues| == NPRIOS
      requires Named(rings[j], j, model.queues[j]) && Blocks(model.thd) && Apart(model, j)
      requires l.id == 0 && l != heads[j]
      ensures l !in rings[j]
    {
      hide Distinct;
      forall k | 0 <= k < |rings[j]| ensures rings[j][k] != l {
        if k > 0 {
          assert rings[j][k - 1 + 1].id == model.queues[j][k - 1];
          assert model.queues[j][k - 1] in model.queues[j];
          assert Holds(model.queues[j][k - 1], model.thd[model.queues[j][k - 1]]);
        }
      }
    }

    lemma ThreadOnly(t: nat, l: PsList.Link, j: nat)
      requires Heads() && j < NPRIOS && |rings| == NPRIOS && |model.queues| == NPRIOS
      requires Named(rings[j], j, model.queues[j]) && l.id == t > 0 && t !in model.queues[j]
      ensures l !in rings[j]
    {
      forall k | 0 <= k < |rings[j]| ensures rings[j][k] != l {
        if k > 0 { assert rings[j][k - 1 + 1].id == model.queues[j][k - 1]; }
      }
    }

    /** `ps_list_rem_d`.  The link is in list s, which is one of the rings or the link alone. */
    method Detach(l: PsList.Link, ghost s: seq<PsList.Link>, ghost k: nat, ghost at: Option<nat>)
      requires AllRings() && Ring(s) && k < |s| && s[k] == l && forall x :: x in s ==> x in links
      requires match at case None => s == [l] case Some(i) => i < |rings| && s == rings[i] && k > 0
      requires OthersClear(at, s)
      modifies `rings, links
      ensures AllRings() && Ring([l])
      ensures rings == if at.Some? then old(rings)[at.value := Removed(s, k)] else old(rings)
      ensures forall x :: x in links && x !in s ==> x.n == old(x.n) && x.p == old(x.p)
    {
      hide Ring;
      Neighbours(s, k);
      Rem(l, s, k);
      if at.Some? {
        rings := rings[at.value := Removed(s, k)];
        assert Ring(rings[at.value]);
      }
      forall j: nat {:trigger rings[j]} | j < |rings| && at != Some(j)
        ensures (forall l :: l in rings[j] ==> l in links) && Ring(rings[j])
      {
        assert rings[j] == old(rings[j]) && old(Clear(j, s));
        Kept(old(rings[j]));
      }
    }

    /** `ps_list_head_append_d`. */
    method Attach(l: PsList.Link, i: nat)
      requires Heads() && AllRings() && i < |rings| == |heads| && rings[i][0] == heads[i]
      requires l in links && forall j: nat {:trigger rings[j]} :: j < |rings| ==> l !in rings[j]
      requires OthersClear(Some(i), rings[i])
      modifies `rings, links
      ensures AllRings() && rings == old(rings)[i := old(rings[i]) + [l]]
      ensures forall x :: x in links && x !in rings[i] ==> x.n == old(x.n) && x.p == old(x.p)
    {
      ghost var s, k := rings[i], |rings[i]| - 1;
      assert s[0].p == s[k];
      hide Ring;
      Neighbours(s, k);
      Add(heads[i].p, l, s, k);
      assert Inserted(s, k, l) == s + [l];
      rings := rings[i := s + [l]];
      assert Ring(rings[i]);
      forall j: nat {:trigger rings[j]} | j < |rings| && j != i
        ensures (forall l :: l in rings[j] ==> l in links) && Ring(rings[j])
      {
        assert rings[j] == old(rings[j]) && old(Clear(j, s));
        Kept(old(rings[j]));
      }
    }

    // ----- threads in the queues -----

    ghost predicate Listed(t: Thread)
      reads `threads, `model
    {
      t.tid in threads && threads[t.tid] == t && t.tid in model.thd
    }

    lemma NamesRemoved(rs: seq<seq<PsList.Link>>, qs: seq<seq<nat>>, i: nat, k: nat)
      requires Heads() && Names(rs, qs) && i < NPRIOS && k < |qs[i]| && k + 1 < |rs[i]|
      ensures Names(rs[i := Removed(rs[i], k + 1)], qs[i := qs[i][..k] + qs[i][k + 1..]])
    {
      assert Named(rs[i], i, qs[i]);
      var r, q := Removed(rs[i], k + 1), qs[i][..k] + qs[i][k + 1..];
      assert Named(r, i, q);
      hide Named;
      var rs', qs' := rs[i := r], qs[i := q];
      forall j | 0 <= j < NPRIOS ensures Named(rs'[j], j, qs'[j]) {
        assert j != i ==> Named(rs[j], j, qs[j]);
      }
    }

    lemma NamesAppended(rs: seq<seq<PsList.Link>>, qs: seq<seq<nat>>, i: nat, t: nat)
      requires Heads() && Names(rs, qs) && i < NPRIOS
      requires t in threads && threads[t].list.id == t && threads[t].list in links
      ensures Names(rs[i := rs[i] + [threads[t].list]], Enqueue(qs, i, t))
    {
      assert Named(rs[i], i, qs[i]);
      var r, q := rs[i] + [threads[t].list], qs[i] + [t];
      assert Named(r, i, q);
      hide Named;
      var rs', qs' := rs[i := r], qs[i := q];
      forall j | 0 <= j < NPRIOS ensures Named(rs'[j], j, qs'[j]) {
        assert j != i ==> Named(rs[j], j, qs[j]);
      }
    }

    /** A thread's link is in ring j only if the thread is in queue j. */
    lemma LinkOnlyIn(t: nat, j: nat)
      requires Wired() && t in model.thd && j < NPRIOS && t !in model.queues[j]
      ensures threads[t].list !in rings[j]
    {
      hide Ring, Distinct;
      assert Holds(t, model.thd[t]) && Named(rings[j], j, model.queues[j]);
      ThreadOnly(t, threads[t].list, j);
    }

    /** The list that thread t's link is in. */
    ghost function ListOf(t: nat, at: Option<nat>): seq<PsList.Link>
      requires t in threads && (at.Some? ==> at.value < |rings|)
      reads `threads, `rings
    {
      if at.Some? then rings[at.value] else [threads[t].list]
    }

    /** The other rings share nothing with it. */
    lemma AllClear(t: nat, at: Option<nat>)
      requires Wired() && t in model.thd
      requires if at.Some? then at.value < NPRIOS else !Queued(model, t)
      ensures OthersClear(at, ListOf(t, at))
    {
      hide Ring, Distinct, Holds, Named;
      forall j: nat | j < NPRIOS && at != Some(j) ensures Clear(j, ListOf(t, at)) {
        if at.Some? {
          assert Apart(model, at.value) && Apart(model, j);
          RingsApart(j, at.value);
        } else {
          LinkOnlyIn(t, j);
        }
      }
    }

    /** What `Position` found, in terms of links. */
    ghost predicate Found(t: nat, at: Option<nat>, k: nat)
      reads `model
    {
      if at.Some? then at.value < |model.queues| && k < |model.queues[at.value]| && model.queues[at.value][k] == t
      else k == 0 && !Queued(model, t)
    }

    lemma ListFacts(t: Thread, at: Option<nat>, k: nat)
      requires Wired() && Listed(t) && Found(t.tid, at, k)
      ensures var s, j := ListOf(t.tid, at), if at.Some? then k + 1 else 0;
              && Ring(s) && j < |s| && s[j] == t.list && (forall x :: x in s ==> x in links)
              && (at.None? ==> s == [t.list])
    {
      hide Ring, Distinct;
      assert Holds(t.tid, model.thd[t.tid]);
      if at.Some? {
        assert Named(rings[at.value], at.value, model.queues[at.value]);
      } else {
        assert Lone(t.tid);
      }
    }

    /** A thread that is in no queue is not in the way. */
    lemma LoneOutside(t: nat, at: Option<nat>)
      requires Wired() && t in model.thd && (at.Some? ==> at.value < NPRIOS)
      ensures forall u {:trigger Queued(model, u)} :: u in model.thd && u != t && !Queued(model, u) ==>
                u in threads && threads[u].list !in ListOf(t, at)
    {
      hide Ring, Distinct, Named, Holds;
      forall u | u in model.thd && u != t && !Queued(model, u)
        ensures u in threads && threads[u].list !in ListOf(t, at)
      {
        if at.Some? { LinkOnlyIn(u, at.value); } else { OtherLink(t, u); }
      }
    }

    lemma OtherLink(t: nat, u: nat)
      requires Blocks(model.thd) && t in model.thd && u in model.thd && t != u
      ensures threads[t].list != threads[u].list
    {
      assert Holds(t, model.thd[t]) && Holds(u, model.thd[u]);
    }

    /** `ps_list_rem_d(t)`, wherever t is. */
    method Remove(t: Thread)
      requires Wired() && Listed(t)
      modifies `rings, `model, links
      ensures Wired() && Listed(t) && !Queued(model, t.tid) && Ring([t.list])
      ensures model == old(model).(queues := Dequeue(old(model).queues, t.tid))
    {
      hide Ring, Distinct, Named, Holds, Apart, Queued;
      ghost var at, k := Position(model, t.tid);
      assert Found(t.tid, at, k);
      ghost var s := ListOf(t.tid, at);
      AllClear(t.tid, at);
      ListFacts(t, at, k);
      LoneOutside(t.tid, at);
      DequeueApart(model, t.tid);
      if at.Some? { NamesRemoved(rings, model.queues, at.value, k); }
      Detach(t.list, s, if at.Some? then k + 1 else 0, at);
      model := model.(queues := Dequeue(model.queues, t.tid));
      forall u | u in model.thd ensures Lone(u) {
        assert old(Lone(u));
        if u != t.tid && !Queued(model, u) { Kept([threads[u].list]); }
      }
    }

    lemma ThreadLink(t: Thread)
      requires Wired() && Listed(t)
      ensures t in repr && t.list in links && t.list.id == t.tid && t.View() == model.thd[t.tid]
      ensures t.priority < NPRIOS
    {
      assert Holds(t.tid, model.thd[t.tid]);
    }

    /** `ps_list_head_append_d(&threads[t->priority], t)`. */
    method Append(t: Thread)
      requires Wired() && Listed(t) && !Queued(model, t.tid)
      modifies `rings, `model, links
      ensures Wired() && Listed(t)
      ensures model == old(model).(queues := Enqueue(old(model).queues, old(model).thd[t.tid].prio, t.tid))
    {
      hide Ring, Distinct, Named, Holds, Apart, Queued;
      ghost var p := model.thd[t.tid].prio;
      ghost var s := rings[p];
      ThreadLink(t);
      assert Named(s, p, model.queues[p]);
      AllClear(t.tid, Some(p));
      LoneOutside(t.tid, Some(p));
      LoneOutside(t.tid, None);
      NotInRings(t.tid);
      EnqueueApart(model, t.tid);
      NamesAppended(rings, model.queues, p, t.tid);
      HeadFirst(p);
      Attach(t.list, t.priority);
      model := model.(queues := Enqueue(model.queues, p, t.tid));
      forall u | u in model.thd ensures Lone(u) {
        assert old(Lone(u));
        if u != t.tid && !Queued(model, u) { Kept([threads[u].list]); }
      }
    }

    lemma HeadFirst(p: nat)
      requires Wired() && p < NPRIOS
      ensures |rings[p]| > 0 && rings[p][0] == heads[p]
    {
      assert Named(rings[p], p, model.queues[p]);
    }

    lemma NotInRings(t: nat)
      requires Wired() && t in model.thd && !Queued(model, t)
      ensures forall j: nat {:trigger rings[j]} :: j < NPRIOS ==> threads[t].list !in rings[j]
    {
      forall j: nat {:trigger rings[j]} | j < NPRIOS ensures threads[t].list !in rings[j] { LinkOnlyIn(t, j); }
    }

    // ----- thread blocks -----

    lemma HoldsStill(thd: map<nat, Thd>, t: nat)
      requires t in thd && threads.Keys == thd.Keys && Holds(t, thd[t])
      requires forall u {:trigger Holds(u, thd[u])} :: u in thd && u != t ==> Holds(u, thd[u])
      ensures Blocks(thd)
    {
    }

    /** Only thread block t has changed, and not its links. */
    twostate lemma OthersHold(t: Thread)
      requires old(Blocks(model.thd)) && old(Listed(t)) && unchanged(`threads, `repr, `links, `model)
      requires forall x :: x in repr && x != t ==> unchanged(x)
      ensures Holds(t.tid, t.View())
      ensures forall u {:trigger Holds(u, model.thd[u])} :: u in model.thd && u != t.tid ==> Holds(u, model.thd[u])
    {
      assert old(Holds(t.tid, model.thd[t.tid]));
      forall u {:trigger Holds(u, model.thd[u])} | u in model.thd && u != t.tid ensures Holds(u, model.thd[u]) {
        assert old(Holds(u, model.thd[u]));
      }
    }

    /** `t->state = state`; the counts are brought up to date with it. */
    method SetState(t: Thread, state: SlState, ghost blocks: nat, ghost wakeups: nat)
      requires Wired() && Listed(t)
      modifies `model, t
      ensures Wired() && Listed(t) && t.state == state && t.priority == old(t.priority)
      ensures var c := old(model).thd[t.tid].(state := state, blocks := blocks, wakeups := wakeups);
              model == old(model).(thd := old(model).thd[t.tid := c])
    {
      hide Ring, Distinct, Named, Apart, Queued;
      ThreadLink(t);
      t.state := state;
      t.blocks := blocks;
      t.wakeups := wakeups;
      OthersHold(t);
      Restored(t);
    }

    /** The model takes over what thread block t now holds. */
    ghost method Restored(t: Thread)
      requires Heads() && Shaped(model) && Names(rings, model.queues) && AllRings() && AllApart(model)
      requires Listed(t) && t.priority < NPRIOS && Holds(t.tid, t.View()) && threads.Keys == model.thd.Keys
      requires forall u {:trigger Holds(u, model.thd[u])} :: u in model.thd && u != t.tid ==> Holds(u, model.thd[u])
      requires forall u {:trigger Lone(u)} :: u in model.thd ==> Lone(u)
      requires t.priority == model.thd[t.tid].prio || !Queued(model, t.tid)
      modifies `model
      ensures Wired() && model == old(model).(thd := old(model).thd[t.tid := t.View()])
    {
      hide Ring, Distinct, Named, Apart, Queued;
      SameQueues(model, t.tid, t.View());
      model := model.(thd := model.thd[t.tid := t.View()]);
      forall u {:trigger Holds(u, model.thd[u])} | u in model.thd && u != t.tid ensures Holds(u, model.thd[u]) {
        assert old(Holds(u, model.thd[u]));
      }
      HoldsStill(model.thd, t.tid);
      forall u | u in model.thd ensures Lone(u) { assert old(Lone(u)); }
    }

    /** `t->priority = v`. */
    method SetPriority(t: Thread, v: nat)
      requires Wired() && Listed(t) && !Queued(model, t.tid) && v < NPRIOS
      modifies `model, t
      ensures Wired() && Listed(t) && !Queued(model, t.tid)
      ensures t.priority == v && t.state == old(t.state)
      ensures var c := old(model).thd[t.tid].(prio := v, placed := true);
              model == old(model).(thd := old(model).thd[t.tid := c])
    {
      hide Ring, Distinct, Named, Apart, Queued;
      ThreadLink(t);
      SameQueues(model, t.tid, model.thd[t.tid].(prio := v, placed := true));
      t.priority := v;
      t.placed := true;
      OthersHold(t);
      Restored(t);
    }

    // ----- the operations -----

    /** `sl_mod_schedule`; null where the code's assertion fails. */
    method Schedule() returns (t: Thread?)
      requires Wired()
      ensures match SlModel.Schedule(model)
              case None => t == null
              case Some(u) => u in threads && t == threads[u]
    {
      hide Distinct, Apart, Holds, Lone;
      for i := 0 to NPRIOS
        invariant SlModel.Schedule(model) == FirstFrom(model.queues, i)
      {
        HeadFirst(i);
        var empty := Empty(heads[i], rings[i]);
        assert Named(rings[i], i, model.queues[i]);
        if empty {
          continue;
        }
        assert rings[i][0].n == rings[i][0 + 1];
        return threads[heads[i].n.id];
      }
      t := null;
    }

    /** The body of `sl_thd_block` for the current thread t, with `sl_mod_block`; the result is whether
        the section is left by way of the scheduler. */
    method ThdBlock(t: Thread) returns (resched: bool)
      requires Valid() && Listed(t) && Allowed(model, Block(t.tid))
      modifies `rings, `model, t, links
      ensures Valid() && model == Next(old(model), Block(t.tid))
      ensures resched <==> old(t.state) == Runnable
      ensures t.state == (if old(t.state) == Woken then Runnable else Blocked) && t.priority == old(t.priority)
    {
      hide Wired, Inv, Dequeue;
      StepInv(model, Block(t.tid));
      ThreadLink(t);
      if t.state == Woken {
        SetState(t, Runnable, t.blocks + 1, t.wakeups);
        return false;
      }
      SetState(t, Blocked, t.blocks + 1, t.wakeups);
      Remove(t);
      resched := true;
    }

    /** The body of `sl_thd_wakeup`, with `sl_mod_wakeup`.  An unknown tid is ignored. */
    method ThdWakeup(tid: nat) returns (resched: bool)
      requires Valid() && Allowed(model, Wakeup(tid))
      modifies `rings, `model, repr, links
      ensures Valid() && model == Next(old(model), Wakeup(tid))
      ensures resched <==> tid in old(model).thd && old(model).thd[tid].state == Blocked
    {
      hide Wired, Inv, Queued;
      StepInv(model, Wakeup(tid));
      ThreadKeys();
      if tid !in threads {
        return false;
      }
      var t := threads[tid];
      FromLookup(tid);
      ThreadLink(t);
      if t.state == Runnable {
        SetState(t, Woken, t.blocks, t.wakeups + 1);
        return false;
      }
      WokenThreadIsAlone(model, tid);
      Alone(tid);
      StateKeepsQueues(tid, Runnable, t.blocks, t.wakeups + 1);
      SetState(t, Runnable, t.blocks, t.wakeups + 1);
      ThreadLink(t);
      assert t.priority <= LOWEST && t.list.n == t.list;
      Append(t);
      resched := true;
    }

    lemma StateKeepsQueues(t: nat, state: SlState, b: nat, w: nat)
      requires t in model.thd
      ensures var c := model.thd[t].(state := state, blocks := b, wakeups := w);
              Queued(model.(thd := model.thd[t := c]), t) <==> Queued(model, t)
    {
    }

    lemma ThreadKeys()
      requires Wired()
      ensures threads.Keys == model.thd.Keys && Shaped(model)
    {
    }

    lemma FromLookup(tid: nat)
      requires Wired() && tid in threads
      ensures Listed(threads[tid]) && threads[tid].tid == tid && threads[tid] in repr
    {
      assert Holds(tid, model.thd[tid]);
    }

    /** The assertion of `sl_mod_wakeup` that the thread is in no list. */
    lemma Alone(t: nat)
      requires Wired() && t in model.thd && !Queued(model, t)
      ensures t in threads && threads[t].list.n == threads[t].list
    {
      hide Queued;
      assert Lone(t);
    }

    /** `sl_mod_yield`, the undirected case of `sl_thd_yield`. */
    method ThdYield(t: Thread)
      requires Valid() && Listed(t) && Allowed(model, Yield(t.tid))
      modifies `rings, `model, links
      ensures Valid() && model == Next(old(model), Yield(t.tid))
    {
      hide Wired, Inv, Dequeue;
      StepInv(model, Yield(t.tid));
      ThreadLink(t);
      assert t.priority <= LOWEST;
      Remove(t);
      Append(t);
    }

    /** `sl_mod_thd_param_set`. */
    method ThdParamSet(t: Thread, v: nat)
      requires Valid() && Listed(t) && Allowed(model, ParamSet(t.tid, v))
      modifies `rings, `model, t, links
      ensures Valid() && model == Next(old(model), ParamSet(t.tid, v))
      ensures t.priority == v && t.state == old(t.state)
    {
      hide Wired, Inv, Dequeue;
      StepInv(model, ParamSet(t.tid, v));
      Remove(t);
      SetPriority(t, v);
      Append(t);
    }

    /** A thread block with its own link alone in a list, listed but not yet part of the model. */
    method NewThread(tid: nat) returns (t: Thread)
      requires Wired() && tid > 0 && tid !in model.thd
      modifies `threads, `repr, `links
      ensures Names(rings, model.queues) && AllRings() && threads.Keys == model.thd.Keys + {tid}
      ensures forall u {:trigger Holds(u, model.thd[u])} :: u in model.thd ==> Holds(u, model.thd[u])
      ensures forall u {:trigger Lone(u)} :: u in model.thd ==> Lone(u)
      ensures Holds(tid, Thd(Runnable, LOWEST, false, 0, 0)) && Lone(tid) && threads[tid] == t && t.tid == tid
      ensures fresh(t) && fresh(t.list) && repr == old(repr) + {t} && links == old(links) + {t.list}
    {
      hide Ring, Distinct, Apart, Queued;
      t := new Thread(tid);
      threads := threads[tid := t];
      repr := repr + {t};
      links := links + {t.list};
      forall i | 0 <= i < NPRIOS ensures Named(rings[i], i, model.queues[i]) {
        assert old(Named(rings[i], i, model.queues[i]));
      }
      forall u | u in model.thd ensures Holds(u, model.thd[u]) && Lone(u) {
        assert old(Holds(u, model.thd[u])) && old(Lone(u));
      }
    }

    /** `sl_thd_alloc_init` with `sl_mod_thd_create`. */
    method ThdCreate(tid: nat) returns (t: Thread)
      requires Valid() && tid > 0 && Allowed(model, Create(tid))
      modifies `threads, `repr, `links, `model
      ensures Valid() && model == Next(old(model), Create(tid))
      ensures Listed(t) && t.tid == tid && fresh(t) && fresh(t.list)
      ensures repr == old(repr) + {t} && links == old(links) + {t.list}
    {
      hide Ring, Inv, Apart, Queued, Named;
      StepInv(model, Create(tid));
      t := NewThread(tid);
      Adopt(tid);
    }

    /** The model takes in a listed thread. */
    ghost method Adopt(tid: nat)
      requires Heads() && Shaped(model) && Names(rings, model.queues) && AllRings() && AllApart(model)
      requires tid !in model.thd && threads.Keys == model.thd.Keys + {tid}
      requires forall u {:trigger Holds(u, model.thd[u])} :: u in model.thd ==> Holds(u, model.thd[u])
      requires forall u {:trigger Lone(u)} :: u in model.thd ==> Lone(u)
      requires Holds(tid, Thd(Runnable, LOWEST, false, 0, 0)) && Lone(tid)
      modifies `model
      ensures Wired() && model == Next(old(model), Create(tid))
    {
      hide Ring, Apart, Queued, Named, Holds;
      NewApart(model, tid);
      model := Next(model, Create(tid));
      forall u | u in model.thd ensures Holds(u, model.thd[u]) && Lone(u) {
        if u != tid { assert old(Holds(u, model.thd[u])); }
        assert old(Lone(u));
      }
    }

    /** `sl_mod_init`. */
    constructor ()
      ensures Valid() && model == Init() && |heads| == 32
      ensures fresh(links) && repr == {}
    {
      var hs: seq<PsList.Link> := [];
      for i := 0 to NPRIOS
        invariant |hs| == i && forall k :: 0 <= k < i ==> fresh(hs[k]) && hs[k].id == 0 && Ring([hs[k]])
        invariant forall j, k :: 0 <= j < k < i ==> hs[j] != hs[k]
      {
        var h := new PsList.Link(0);
        hs := hs + [h];
      }
      heads := hs;
      threads := map[];
      model := Init();
      rings := seq(NPRIOS, i requires 0 <= i < |hs| => [hs[i]]);
      repr := {};
      links := set h | h in hs;
    }
  }
}
