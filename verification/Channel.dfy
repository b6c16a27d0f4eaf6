/** channel.c in memory: messages travel in nodes that the sender allocates and the receiver frees. */
module Channel {
  import opened ChannelModel
  import FreeList
  import Kalloc
  import RingBuffer

  /** `struct clist_head`: the offsets of its two fields, and its size. */
  const DATA := 0
  const THD := 4
  const NODE := 8

  datatype Sending = SndClosed | SndWaits | NoMemory | Sent
  datatype Receiving = RcvClosed | RcvWaits | Got(data: nat)

  /** Writing outside the free bytes, as the owners of blocks do, never damages the free list. */
  lemma OwnersWrite(m: seq<int>, m': seq<int>, first: int, rs: seq<FreeList.Run>)
    requires Kalloc.Stored(m, first, rs) && |m'| == |m|
    requires forall x :: 0 <= x < |m| && FreeList.Covers(rs, x) ==> m'[x] == m[x]
    ensures Kalloc.Stored(m', first, rs)
  {
    forall i | 0 <= i < |rs| ensures Kalloc.Header(m', rs, i) {
      assert Kalloc.Header(m, rs, i);
      Kalloc.CoversAt(rs, i, rs[i].addr + Kalloc.NEXT);
      Kalloc.CoversAt(rs, i, rs[i].addr + Kalloc.LEN);
    }
  }

  /** A block taken from the free bytes does not meet one that was not free. */
  lemma BlocksApart(rs: seq<FreeList.Run>, a: int, b: int)
    requires FreeList.Apart(rs, b, NODE) && forall x :: a <= x < a + NODE ==> FreeList.Covers(rs, x)
    ensures Disjoint(a, b)
  {
    assert b <= a < b + NODE ==> !FreeList.Covers(rs, a);
    assert a <= b < a + NODE ==> FreeList.Covers(rs, b);
  }

  lemma {:induction false} FreeInMemory(size: int, rs: seq<FreeList.Run>, b: int)
    requires Kalloc.Fits(size, rs) && FreeList.Covers(rs, b)
    ensures 0 < b < size
  {
    if !(rs[0].addr <= b < FreeList.End(rs[0])) { FreeInMemory(size, rs[1..], b); }
  }

  lemma PoolFacts(pool: Kalloc.Pool)
    requires pool.Valid()
    ensures FreeList.Canonical(pool.runs) && Kalloc.Fits(pool.mem.Length, pool.runs)
  {
  }

  /** The node at address a lies in one allocated block of its own and holds msg. */
  ghost predicate Node(m: seq<int>, rs: seq<FreeList.Run>, a: nat, msg: Msg) {
    && 0 < a && a + NODE <= |m| && FreeList.Apart(rs, a, NODE)
    && m[a + DATA] == msg.data && m[a + THD] == msg.sender
  }

  ghost predicate Disjoint(a: int, b: int) {
    a + NODE <= b || b + NODE <= a
  }

  ghost predicate Nodes(m: seq<int>, rs: seq<FreeList.Run>, q: seq<nat>, ms: seq<Msg>) {
    && |q| == |ms|
    && (forall i {:trigger q[i]} :: 0 <= i < |q| ==> Node(m, rs, q[i], ms[i]))
    && (forall i, j {:trigger q[i], q[j]} :: 0 <= i < j < |q| ==> Disjoint(q[i], q[j]))
  }

  /** Nodes survive whatever the allocator and the owners of other blocks do, as long as the nodes are
      not freed and nobody writes to them. */
  lemma NodesStay(m: seq<int>, rs: seq<FreeList.Run>, m': seq<int>, rs': seq<FreeList.Run>, q: seq<nat>, ms: seq<Msg>)
    requires Nodes(m, rs, q, ms) && |m'| == |m|
    requires forall i {:trigger q[i]} :: 0 <= i < |q| ==> Untouched(m, m', rs', q[i])
    ensures Nodes(m', rs', q, ms)
  {
  }

  /** The allocator that works on rs' has the block at a neither free nor overwritten. */
  ghost predicate Untouched(m: seq<int>, m': seq<int>, rs': seq<FreeList.Run>, a: nat) {
    && a + NODE <= |m| == |m'| && FreeList.Apart(rs', a, NODE)
    && m'[a + DATA] == m[a + DATA] && m'[a + THD] == m[a + THD]
  }

  lemma NodesMore(m: seq<int>, rs: seq<FreeList.Run>, q: seq<nat>, ms: seq<Msg>, a: nat, msg: Msg)
    requires Nodes(m, rs, q, ms) && Node(m, rs, a, msg) && forall i :: 0 <= i < |q| ==> Disjoint(q[i], a)
    ensures Nodes(m, rs, q + [a], ms + [msg])
  {
  }

  lemma NodesFewer(m: seq<int>, rs: seq<FreeList.Run>, q: seq<nat>, ms: seq<Msg>)
    requires Nodes(m, rs, q, ms) && |q| > 0
    ensures Nodes(m, rs, q[1..], ms[1..]) && Node(m, rs, q[0], ms[0])
    ensures forall i :: 0 <= i < |q[1..]| ==> Disjoint(q[1..][i], q[0])
  {
    forall i {:trigger q[1..][i]} | 0 <= i < |q[1..]|
      ensures Node(m, rs, q[1..][i], ms[1..][i]) && Disjoint(q[1..][i], q[0])
    {
      assert q[1..][i] == q[i + 1];
    }
    forall i, j {:trigger q[1..][i], q[1..][j]} | 0 <= i < j < |q[1..]| ensures Disjoint(q[1..][i], q[1..][j]) {
      assert q[1..][i] == q[i + 1] && q[1..][j] == q[j + 1];
    }
  }

  ghost predicate InNodes(q: seq<nat>, b: int) {
    exists i :: 0 <= i < |q| && q[i] <= b < q[i] + NODE
  }

  lemma InNodesAppend(q: seq<nat>, a: nat, b: int)
    ensures InNodes(q + [a], b) <==> InNodes(q, b) || a <= b < a + NODE
    ensures InNodes([a] + q, b) <==> InNodes(q, b) || a <= b < a + NODE
  {
    var r, l := q + [a], [a] + q;
    assert r[|q|] == a && l[0] == a;
    if i :| 0 <= i < |q| && q[i] <= b < q[i] + NODE { assert r[i] == q[i] && l[i + 1] == q[i]; }
  }

  /** The bytes that are not free in rs keep their contents. */
  ghost predicate InUseKept(m: seq<int>, rs: seq<FreeList.Run>, m': seq<int>) {
    |m'| == |m| && forall x {:trigger m'[x]} :: 0 <= x < |m| && !FreeList.Covers(rs, x) ==> m'[x] == m[x]
  }

  class Chan {
    const rbuf: RingBuffer.Rbuf
    const pool: Kalloc.Pool
    /** `rcv_thd != NULL`. */
    var open: bool
    var sndCnt: int
    var cgrp: Group?
    ghost var model: ChannelModel.Chan

    ghost predicate Valid()
      reads this, pool, pool.mem, rbuf, rbuf.buf
    {
      && pool.Valid() && rbuf.Valid()
      && model.capacity == rbuf.capacity - 1 && Inv(model)
      && Nodes(pool.mem[..], pool.runs, rbuf.Contents(), model.buffered)
    }

    /** Byte b is free, or belongs to a buffered message. */
    ghost predicate Accounted(b: int)
      reads this, pool, rbuf, rbuf.buf
      requires rbuf.Valid()
    {
      FreeList.Covers(pool.runs, b) || InNodes(rbuf.Contents(), b)
    }

    /** `lwt_chan`, for a size whose buffer gets the room it needs. */
    constructor (size: nat, pool: Kalloc.Pool)
      requires pool.Valid()
      requires size < RingBuffer.WORD / RingBuffer.CELL_SIZE - 1
      requires RingBuffer.Accepted(RingBuffer.Bytes(RingBuffer.Cells(size)))
      ensures Valid() && this.pool == pool && open && sndCnt == 0 && cgrp == null
      ensures model == ChannelModel.Chan(if size == 0 then RingBuffer.INFINITE_CAP else size, [], [], [])
      ensures fresh(rbuf) && fresh(rbuf.buf)
    {
      this.pool := pool;
      rbuf := new RingBuffer.Rbuf(size);
      open, sndCnt, cgrp := true, 0, null;
      model := ChannelModel.Chan(if size == 0 then RingBuffer.INFINITE_CAP else size, [], [], []);
    }

    /** `kalloc` of a node. */
    method TakeBlock(ghost q: seq<nat>, ghost ms: seq<Msg>) returns (node: nat)
      requires pool.Valid() && Nodes(pool.mem[..], pool.runs, q, ms) && Kalloc.Splits(pool.runs, NODE)
      modifies pool, pool.mem
      ensures pool.Valid() && pool.runs == FreeList.Alloc(old(pool.runs), NODE).1
      ensures InUseKept(old(pool.mem[..]), old(pool.runs), pool.mem[..])
      ensures Nodes(pool.mem[..], pool.runs, q, ms)
      ensures FreeList.Alloc(old(pool.runs), NODE).0 == if node == 0 then FreeList.Failed else FreeList.At(node)
      ensures node != 0 ==>
                && node + NODE <= pool.mem.Length && FreeList.Apart(pool.runs, node, NODE)
                && (forall i :: 0 <= i < |q| ==> Disjoint(q[i], node))
      ensures forall b :: FreeList.Covers(old(pool.runs), b) <==>
                FreeList.Covers(pool.runs, b) || (node != 0 && node <= b < node + NODE)
    {
      hide FreeList.Canonical, Kalloc.Stored, FreeList.Alloc;
      ghost var m, rs := pool.mem[..], pool.runs;
      PoolFacts(pool);
      FreeList.AllocTakes(rs, NODE);
      node := pool.Kalloc(NODE);
      if node != 0 {
        FreeInMemory(pool.mem.Length, rs, node);
        FreeInMemory(pool.mem.Length, rs, node + NODE - 1);
      }
      forall i {:trigger q[i]} | 0 <= i < |q|
        ensures Untouched(m, pool.mem[..], pool.runs, q[i]) && (node != 0 ==> Disjoint(q[i], node))
      {
        assert Node(m, rs, q[i], ms[i]);
        if node != 0 { BlocksApart(rs, node, q[i]); }
      }
      NodesStay(m, rs, pool.mem[..], pool.runs, q, ms);
    }

    /** The sender's part of `lwt_snd` that allocates and fills the node. */
    method NewNode(m: Msg, ghost q: seq<nat>, ghost ms: seq<Msg>) returns (node: nat)
      requires pool.Valid() && Nodes(pool.mem[..], pool.runs, q, ms) && Kalloc.Splits(pool.runs, NODE)
      modifies pool, pool.mem
      ensures pool.Valid()
      ensures InUseKept(old(pool.mem[..]), old(pool.runs), pool.mem[..])
      ensures FreeList.Alloc(old(pool.runs), NODE).0 == if node == 0 then FreeList.Failed else FreeList.At(node)
      ensures Nodes(pool.mem[..], pool.runs, if node == 0 then q else q + [node], if node == 0 then ms else ms + [m])
      ensures forall b :: FreeList.Covers(old(pool.runs), b) <==>
                FreeList.Covers(pool.runs, b) || (node != 0 && node <= b < node + NODE)
    {
      hide FreeList.Canonical, Kalloc.Stored, FreeList.Alloc;
      node := TakeBlock(q, ms);
      if node != 0 {
        ghost var before := pool.mem[..];
        pool.mem[node + THD] := m.sender;
        pool.mem[node + DATA] := m.data;
        ghost var after := pool.mem[..];
        OwnersWrite(before, after, pool.freelist, pool.runs);
        forall i {:trigger q[i]} | 0 <= i < |q| ensures Untouched(before, after, pool.runs, q[i]) {
          assert Node(before, pool.runs, q[i], ms[i]) && Disjoint(q[i], node);
        }
        NodesStay(before, pool.runs, after, pool.runs, q, ms);
        NodesMore(after, pool.runs, q, ms, node, m);
      }
    }

    /** One pass of the loop of `lwt_snd`, and what follows it: where a call that has found the channel open
        goes on, and where it goes on again after a yield.  `SndWaits` stands for that yield.  With no room
        for a node the code would write through the null pointer. */
    method SndPass(t: nat, data: nat) returns (r: Sending, ghost node: nat)
      requires Valid() && data != 0 && Kalloc.Splits(pool.runs, NODE)
      modifies `sndCnt, `model, pool, pool.mem, rbuf`tail, rbuf.buf
      ensures Valid() && r != SndClosed
      ensures r == SndWaits <==> |old(rbuf.Contents())| == rbuf.capacity - 1
      ensures r == NoMemory <==>
                && |old(rbuf.Contents())| < rbuf.capacity - 1
                && FreeList.Alloc(old(pool.runs), NODE).0 == FreeList.Failed
      ensures model == if r == Sent then Next(old(model), ChannelModel.Snd(Msg(t, data))) else old(model)
      ensures r == Sent ==> model.buffered == old(model).buffered + [Msg(t, data)]
      ensures sndCnt == old(sndCnt) + if r == Sent then 1 else 0
      ensures forall b :: Accounted(b) <==> old(Accounted(b))
      // only free bytes are written, and the new node, if there is one, is made of them
      ensures InUseKept(old(pool.mem[..]), old(pool.runs), pool.mem[..])
      ensures rbuf.Contents() == old(rbuf.Contents()) + if r == Sent then [node] else []
      ensures forall b :: FreeList.Covers(old(pool.runs), b) <==>
                FreeList.Covers(pool.runs, b) || (r == Sent && node <= b < node + NODE)
    {
      hide Nodes, FreeList.Canonical, Kalloc.Stored, FreeList.Alloc, FreeList.Covers, InUseKept, Kalloc.Splits;
      Unwritten(pool.mem[..], pool.runs);
      ghost var q, m := rbuf.Contents(), Msg(t, data);
      node := 0;
      assert |q| == |model.buffered| by { SameLength(pool.mem[..], pool.runs, q, model.buffered); }
      var full := rbuf.IsFull();
      if full {
        return SndWaits, 0;
      }
      var n := NewNode(Msg(t, data), q, model.buffered);
      if n == 0 {
        return NoMemory, 0;
      }
      node := n;
      var w := rbuf.Write(n);
      assert w == RingBuffer.Ok;
      NextInv(model, ChannelModel.Snd(m));
      sndCnt := sndCnt + 1;
      model := Next(model, ChannelModel.Snd(m));
      forall b ensures Accounted(b) <==> old(Accounted(b)) { InNodesAppend(q, n, b); }
      r := Sent;
    }

    /** `lwt_snd` by thread t, up to its end or to the first yield in its loop.  Whether the receiver still
        has the channel is tested here only. */
    method Snd(t: nat, data: nat) returns (r: Sending, ghost node: nat)
      requires Valid() && data != 0 && (open ==> Kalloc.Splits(pool.runs, NODE))
      modifies `sndCnt, `model, pool, pool.mem, rbuf`tail, rbuf.buf
      ensures Valid()
      ensures r == SndClosed <==> !open
      ensures r == SndWaits <==> open && |old(rbuf.Contents())| == rbuf.capacity - 1
      ensures r == NoMemory <==>
                && open && |old(rbuf.Contents())| < rbuf.capacity - 1
                && FreeList.Alloc(old(pool.runs), NODE).0 == FreeList.Failed
      ensures model == if r == Sent then Next(old(model), ChannelModel.Snd(Msg(t, data))) else old(model)
      ensures r == Sent ==> model.buffered == old(model).buffered + [Msg(t, data)]
      ensures sndCnt == old(sndCnt) + if r == Sent then 1 else 0
      ensures forall b :: Accounted(b) <==> old(Accounted(b))
      ensures InUseKept(old(pool.mem[..]), old(pool.runs), pool.mem[..])
      ensures rbuf.Contents() == old(rbuf.Contents()) + if r == Sent then [node] else []
      ensures forall b :: FreeList.Covers(old(pool.runs), b) <==>
                FreeList.Covers(pool.runs, b) || (r == Sent && node <= b < node + NODE)
    {
      hide Nodes, FreeList.Canonical, Kalloc.Stored, FreeList.Alloc, FreeList.Covers, InUseKept, Kalloc.Splits;
      if !open {
        Unwritten(pool.mem[..], pool.runs);
        return SndClosed, 0;
      }
      r, node := SndPass(t, data);
    }

    lemma Unwritten(m: seq<int>, rs: seq<FreeList.Run>)
      ensures InUseKept(m, rs, m)
    {
    }

    lemma SameLength(m: seq<int>, rs: seq<FreeList.Run>, q: seq<nat>, ms: seq<Msg>)
      requires Nodes(m, rs, q, ms)
      ensures |q| == |ms|
    {
    }

    /** `kfree` of the oldest node, after its data has been read. */
    method FreeNode(node: nat, ghost q: seq<nat>, ghost ms: seq<Msg>)
      requires pool.Valid() && |q| > 0 && q[0] == node && Nodes(pool.mem[..], pool.runs, q, ms)
      modifies pool, pool.mem
      ensures pool.Valid() && Nodes(pool.mem[..], pool.runs, q[1..], ms[1..])
      ensures pool.runs == FreeList.Free(old(pool.runs), node, NODE)
      ensures InUseKept(old(pool.mem[..]), pool.runs, pool.mem[..])
      ensures forall b :: FreeList.Covers(pool.runs, b) <==>
                FreeList.Covers(old(pool.runs), b) || node <= b < node + NODE
    {
      hide FreeList.Canonical, Kalloc.Stored, FreeList.Free;
      ghost var m, rs := pool.mem[..], pool.runs;
      PoolFacts(pool);
      NodesFewer(m, rs, q, ms);
      FreeList.FreeAdds(rs, node, NODE);
      pool.Kfree(node, NODE);
      forall i {:trigger q[1..][i]} | 0 <= i < |q[1..]| ensures Untouched(m, pool.mem[..], pool.runs, q[1..][i]) {
        assert Node(m, rs, q[1..][i], ms[1..][i]) && Disjoint(q[1..][i], node);
      }
      NodesStay(m, rs, pool.mem[..], pool.runs, q[1..], ms[1..]);
    }

    /** One pass of `lwt_rcv`.  `RcvWaits` stands for the yield in its loop; it is the receiver itself that
        drops a channel, so that the test before the loop gives the same answer in every pass. */
    method Rcv() returns (r: Receiving)
      requires Valid()
      modifies `model, pool, pool.mem, rbuf`head
      ensures Valid()
      ensures r == RcvClosed <==> !open
      ensures r == RcvWaits <==> open && old(rbuf.Contents()) == []
      ensures r.Got? ==> old(model).buffered == [Msg(old(model).buffered[0].sender, r.data)] + model.buffered
      ensures r.Got? ==> pool.runs == FreeList.Free(old(pool.runs), old(rbuf.Contents()[0]), NODE)
      ensures model == if r.Got? then Next(old(model), ChannelModel.Rcv) else old(model)
      ensures forall b :: Accounted(b) <==> old(Accounted(b))
      // only bytes that are free now are written, and the oldest node is all that became free
      ensures InUseKept(old(pool.mem[..]), pool.runs, pool.mem[..])
      ensures r.Got? ==> old(rbuf.Contents()) == [old(rbuf.Contents()[0])] + rbuf.Contents()
      ensures !r.Got? ==> rbuf.Contents() == old(rbuf.Contents())
      ensures forall b :: FreeList.Covers(pool.runs, b) <==>
                || FreeList.Covers(old(pool.runs), b)
                || (r.Got? && old(rbuf.Contents()[0]) <= b < old(rbuf.Contents()[0]) + NODE)
    {
      hide Nodes, FreeList.Canonical, Kalloc.Stored, FreeList.Covers, FreeList.Free, InUseKept;
      Unwritten(pool.mem[..], pool.runs);
      if !open {
        return RcvClosed;
      }
      ghost var q := rbuf.Contents();
      assert |q| == |model.buffered| by { SameLength(pool.mem[..], pool.runs, q, model.buffered); }
      var empty := rbuf.IsEmpty();
      if empty {
        return RcvWaits;
      }
      NodesFewer(pool.mem[..], pool.runs, q, model.buffered);
      var node := rbuf.Read();
      assert node != 0;
      r := Got(pool.mem[node + DATA]);
      FreeNode(node, q, model.buffered);
      NextInv(model, ChannelModel.Rcv);
      model := Next(model, ChannelModel.Rcv);
      forall b ensures Accounted(b) <==> old(Accounted(b)) { InNodesAppend(q[1..], node, b); }
    }

    // ----- other threads, while a call waits -----

    /** Another thread allocates a block. */
    method OtherKalloc(n: int) returns (a: int)
      requires Valid() && n > 0 && Kalloc.Splits(pool.runs, n)
      modifies pool, pool.mem
      ensures Valid() && pool.runs == FreeList.Alloc(old(pool.runs), n).1
    {
      hide FreeList.Canonical, Kalloc.Stored, FreeList.Alloc;
      ghost var m, rs, q := pool.mem[..], pool.runs, rbuf.Contents();
      PoolFacts(pool);
      FreeList.AllocTakes(rs, n);
      a := pool.Kalloc(n);
      forall i {:trigger q[i]} | 0 <= i < |q| ensures Untouched(m, pool.mem[..], pool.runs, q[i]) {
        assert Node(m, rs, q[i], model.buffered[i]);
      }
      NodesStay(m, rs, pool.mem[..], pool.runs, q, model.buffered);
    }

    /** Another thread frees a block of its own. */
    method OtherKfree(v: int, len: int)
      requires Valid() && pool.Freeable(v, len)
      requires forall i {:trigger rbuf.Contents()[i]} :: 0 <= i < |rbuf.Contents()| ==>
                 v + len <= rbuf.Contents()[i] || rbuf.Contents()[i] + NODE <= v
      modifies pool, pool.mem
      ensures Valid() && pool.runs == FreeList.Free(old(pool.runs), v, len)
    {
      hide FreeList.Canonical, Kalloc.Stored, FreeList.Free;
      ghost var m, rs, q := pool.mem[..], pool.runs, rbuf.Contents();
      PoolFacts(pool);
      FreeList.FreeAdds(rs, v, len);
      pool.Kfree(v, len);
      forall i {:trigger q[i]} | 0 <= i < |q| ensures Untouched(m, pool.mem[..], pool.runs, q[i]) {
        assert Node(m, rs, q[i], model.buffered[i]);
      }
      NodesStay(m, rs, pool.mem[..], pool.runs, q, model.buffered);
    }

    /** No node leaks and none is freed twice: between two moments at which the channel is empty, its
        sends and receives have put the free list back as it was. */
    twostate lemma DrainedRestores()
      requires old(Valid()) && Valid()
      requires old(model.buffered) == [] && model.buffered == []
      requires forall b :: Accounted(b) <==> old(Accounted(b))
      ensures pool.runs == old(pool.runs)
    {
      PoolFacts(pool);
      forall b ensures FreeList.Covers(pool.runs, b) <==> FreeList.Covers(old(pool.runs), b) {
        assert Accounted(b) <==> old(Accounted(b));
      }
      FreeList.Unique(pool.runs, old(pool.runs));
    }
  }

  // ----- two channels on one pool -----

  /** Two channels share the pool and nothing else: no node of one meets a node of the other. */
  ghost predicate Beside(c: Chan, d: Chan)
    requires c.rbuf.Valid() && d.rbuf.Valid()
    reads c.rbuf, c.rbuf.buf, d.rbuf, d.rbuf.buf
  {
    && c != d && c.pool == d.pool && c.rbuf != d.rbuf && c.rbuf.buf != d.rbuf.buf
    && NodesApart(c.rbuf.Contents(), d.rbuf.Contents())
  }

  ghost predicate NodesApart(p: seq<nat>, q: seq<nat>) {
    forall i, j {:trigger p[i], q[j]} :: 0 <= i < |p| && 0 <= j < |q| ==> Disjoint(p[i], q[j])
  }

  /** Bytes that were free do not meet a node that is in use. */
  lemma NewApart(m: seq<int>, rs: seq<FreeList.Run>, q: seq<nat>, ms: seq<Msg>, p: seq<nat>, node: nat)
    requires Nodes(m, rs, q, ms) && NodesApart(p, q)
    requires forall b :: node <= b < node + NODE ==> FreeList.Covers(rs, b)
    ensures NodesApart(p + [node], q)
  {
    forall j | 0 <= j < |q| ensures Disjoint(node, q[j]) {
      assert Node(m, rs, q[j], ms[j]);
      BlocksApart(rs, node, q[j]);
    }
  }

  /** A pass of a send on c leaves a channel d beside it intact, with all its messages. */
  method SndBeside(c: Chan, d: Chan, t: nat, data: nat) returns (r: Sending)
    requires c.Valid() && d.Valid() && Beside(c, d) && data != 0 && Kalloc.Splits(c.pool.runs, NODE)
    modifies c`sndCnt, c`model, c.pool, c.pool.mem, c.rbuf`tail, c.rbuf.buf
    ensures c.Valid() && d.Valid() && Beside(c, d)
    ensures c.model == if r == Sent then Next(old(c.model), ChannelModel.Snd(Msg(t, data))) else old(c.model)
    ensures d.model == old(d.model) && d.rbuf.Contents() == old(d.rbuf.Contents())
  {
    hide FreeList.Canonical, FreeList.Covers, Kalloc.Stored, Kalloc.Splits, Inv;
    ghost var m, rs, p, q, ms := d.pool.mem[..], d.pool.runs, c.rbuf.Contents(), d.rbuf.Contents(), d.model.buffered;
    ghost var node;
    r, node := c.SndPass(t, data);
    forall i {:trigger q[i]} | 0 <= i < |q| ensures Untouched(m, d.pool.mem[..], d.pool.runs, q[i]) {
      assert Node(m, rs, q[i], ms[i]);
    }
    NodesStay(m, rs, d.pool.mem[..], d.pool.runs, q, ms);
    if r == Sent { NewApart(m, rs, q, ms, p, node); }
  }

  /** So does a receive from c. */
  method RcvBeside(c: Chan, d: Chan) returns (r: Receiving)
    requires c.Valid() && d.Valid() && Beside(c, d)
    modifies c`model, c.pool, c.pool.mem, c.rbuf`head
    ensures c.Valid() && d.Valid() && Beside(c, d)
    ensures c.model == if r.Got? then Next(old(c.model), ChannelModel.Rcv) else old(c.model)
    ensures d.model == old(d.model) && d.rbuf.Contents() == old(d.rbuf.Contents())
  {
    hide FreeList.Canonical, FreeList.Covers, FreeList.Free, Kalloc.Stored, Inv;
    ghost var m, rs, p, q, ms := d.pool.mem[..], d.pool.runs, c.rbuf.Contents(), d.rbuf.Contents(), d.model.buffered;
    r := c.Rcv();
    if r.Got? { assert p == [p[0]] + c.rbuf.Contents(); }
    forall i {:trigger q[i]} | 0 <= i < |q| ensures Untouched(m, d.pool.mem[..], d.pool.runs, q[i]) {
      assert Node(m, rs, q[i], ms[i]);
      assert r.Got? ==> Disjoint(p[0], q[i]);
    }
    NodesStay(m, rs, d.pool.mem[..], d.pool.runs, q, ms);
    assert forall i :: 0 <= i < |c.rbuf.Contents()| ==> c.rbuf.Contents()[i] in p;
  }

  // ----- groups -----

  /** `struct lwt_cgrp`, with its TAILQ as a sequence. */
  class Group {
    var chanCnt: int
    var list: seq<Chan>

    /** Every listed channel is listed once and names this group. */
    ghost predicate Valid()
      reads this, list
    {
      && chanCnt == |list|
      && (forall i, j :: 0 <= i < j < |list| ==> list[i] != list[j])
      && (forall c :: c in list ==> c.cgrp == this)
    }

    /** `lwt_cgrp`. */
    constructor ()
      ensures Valid() && list == []
    {
      chanCnt, list := 0, [];
    }

    /** `lwt_cgrp_free`, up to the release of the memory. */
    method Free() returns (r: int)
      requires Valid()
      ensures r == if list == [] then 0 else -1
    {
      r := if chanCnt != 0 then -1 else 0;
    }

    /** `lwt_cgrp_add`.  A channel is linked only if it names no group yet.  One that names this group is
        reported as added whether it is linked or not. */
    method Add(c: Chan) returns (r: int)
      requires Valid()
      modifies this, c`cgrp
      ensures Valid() && c.cgrp != null
      ensures old(c.cgrp) == null ==> c.cgrp == this && list == old(list) + [c]
      ensures old(c.cgrp) != null ==> c.cgrp == old(c.cgrp) && list == old(list)
      ensures r == if c.cgrp == this then 0 else -1
      ensures (r == 0 ==> c in list) <==> old(c.cgrp) != this || c in old(list)
    {
      if c.cgrp == null {
        c.cgrp := this;
        chanCnt := chanCnt + 1;
        list := list + [c];
        return 0;
      }
      if c.cgrp == this {
        return 0;
      }
      r := -1;
    }

    /** `lwt_cgrp_rem`, for a channel that is linked if it names this group.  The channel goes on naming
        the group. */
    method Remove(c: Chan) returns (r: int)
      requires Valid() && c.rbuf.Valid() && (c.cgrp == this ==> c in list)
      modifies this
      ensures Valid()
      ensures r == if c.cgrp != this then -1 else if c.rbuf.Contents() == [] then 0 else 1
      ensures r != 0 ==> list == old(list)
      ensures r == 0 ==> c !in list
      ensures r == 0 ==> exists i ::
                0 <= i < |old(list)| && old(list)[i] == c && list == old(list)[..i] + old(list)[i + 1..]
    {
      if c.cgrp != this {
        return -1;
      }
      var empty := c.rbuf.IsEmpty();
      if empty {
        var i :| 0 <= i < |list| && list[i] == c;
        list := list[..i] + list[i + 1..];
        chanCnt := chanCnt - 1;
        return 0;
      }
      r := 1;
    }

    /** One pass of `lwt_cgrp_wait`: the first channel with something to receive.  Null stands for the
        yield in its loop. */
    method Poll() returns (c: Chan?)
      requires Valid() && forall p :: p in list ==> p.rbuf.Valid()
      ensures c == null <==> forall p :: p in list ==> p.rbuf.Contents() == []
      ensures c != null ==> exists i :: 0 <= i < |list| && list[i] == c && c.rbuf.Contents() != []
                              && forall j :: 0 <= j < i ==> list[j].rbuf.Contents() == []
    {
      for i := 0 to |list|
        invariant forall j :: 0 <= j < i ==> list[j].rbuf.Contents() == []
      {
        var empty := list[i].rbuf.IsEmpty();
        if !empty {
          return list[i];
        }
      }
      c := null;
    }
  }

  /** A channel that has been taken out of a group cannot be put back: the group reports success and links
      nothing. */
  method AddAfterRemove(g: Group, c: Chan) returns (removed: int, added: int)
    requires g.Valid() && c.rbuf.Valid() && c.cgrp == g && c in g.list && c.rbuf.Contents() == []
    modifies g, c`cgrp
    ensures g.Valid() && removed == 0 && added == 0 && c !in g.list
  {
    removed := g.Remove(c);
    added := g.Add(c);
  }
}
