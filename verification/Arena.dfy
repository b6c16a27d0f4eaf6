/** The allocator over whole runs: which bytes are free, which belong to a block in use. */
module Arena {
  import opened FreeList
  import opened Options
  import K = Kalloc

  /** `all` lists the bytes the allocator was ever given, `live` maps the address of each block in use to
      its length. */
  datatype Arena = Arena(all: seq<Run>, free: seq<Run>, live: map<int, int>)

  datatype Op =
    | Kalloc(n: int)
    | Kfree(a: int)
    // kalloc.c only: `malloc` answered a request that the free list could not
    | Segment(p: int, n: int)

  /** `kinit`: one segment is freed into the empty list. */
  ghost function Init(base: int, size: int): Arena {
    Arena([Run(base, size)], Free([], base, size), map[])
  }

  ghost predicate Owns(s: Arena, a: int, b: int) {
    a in s.live && a <= b < a + s.live[a]
  }

  /** Two blocks in use share no byte. */
  ghost predicate Separate(s: Arena, a: int, c: int)
    requires a in s.live && c in s.live
  {
    a == c || a + s.live[a] <= c || c + s.live[c] <= a
  }

  /** Every byte of the arena is either free or in exactly one block, and the free list is canonical. */
  ghost predicate Inv(s: Arena) {
    && Canonical(s.all) && Canonical(s.free)
    && (forall a :: a in s.live ==> s.live[a] > 0 && Apart(s.free, a, s.live[a]))
    && (forall a, b {:trigger Owns(s, a, b)} :: Owns(s, a, b) ==> Covers(s.all, b))
    && (forall a, c {:trigger Separate(s, a, c)} :: a in s.live && c in s.live ==> Separate(s, a, c))
    && (forall b :: Covers(s.free, b) ==> Covers(s.all, b))
    && (forall b :: Covers(s.all, b) ==> Covers(s.free, b) || exists a :: Owns(s, a, b))
  }

  /** A block is freed with the length it was allocated with; `malloc` answers with unused memory. */
  ghost predicate Allowed(s: Arena, op: Op) {
    match op
    case Kalloc(n) => n > 0
    case Kfree(a) => a in s.live
    case Segment(p, n) => n > 0 && Alloc(s.free, n).0 == Failed && Apart(s.all, p, n)
  }

  ghost function Next(s: Arena, op: Op): Arena
    requires Allowed(s, op)
  {
    match op
    case Kalloc(n) =>
      var (a, rest) := Alloc(s.free, n);
      if a == Failed then s else s.(free := rest, live := s.live[a.addr := n])
    case Kfree(a) => s.(free := Free(s.free, a, s.live[a]), live := s.live - {a})
    case Segment(p, n) => s.(all := Free(s.all, p, n), live := s.live[p := n])
  }

  lemma KallocInv(s: Arena, n: int)
    requires Inv(s) && n > 0
    ensures Inv(Next(s, Kalloc(n)))
  {
    AllocTakes(s.free, n);
    var (a, rest) := Alloc(s.free, n);
    if a.At? {
      AddBlock(s, s.all, rest, a.addr, n);
    }
  }

  /** A new block over bytes that no block has. */
  lemma AddBlock(s: Arena, all: seq<Run>, free: seq<Run>, p: int, n: int)
    requires Inv(s) && n > 0 && Canonical(all) && Canonical(free) && Apart(free, p, n)
    requires forall b :: p <= b < p + n ==> Covers(all, b) && (Covers(s.free, b) || !Covers(s.all, b))
    requires forall b :: !(p <= b < p + n) ==> (Covers(all, b) <==> Covers(s.all, b))
    requires forall b :: !(p <= b < p + n) ==> (Covers(free, b) <==> Covers(s.free, b))
    ensures Inv(Arena(all, free, s.live[p := n]))
  {
    var s' := Arena(all, free, s.live[p := n]);
    forall a, b | Owns(s, a, b) ensures !(p <= b < p + n) {
      assert Covers(s.all, b) && !Covers(s.free, b);
    }
    assert p in s.live ==> Owns(s, p, p);
    forall a | a in s'.live ensures s'.live[a] > 0 && Apart(s'.free, a, s'.live[a]) {
      if a != p {
        forall b | a <= b < a + s.live[a] ensures !Covers(free, b) { assert Owns(s, a, b); }
      }
    }
    forall a, b | Owns(s', a, b) ensures Covers(all, b) {
      if a != p { assert Owns(s, a, b); }
    }
    forall a, c | a in s'.live && c in s'.live ensures Separate(s', a, c) {
      if a != p && c != p { assert Separate(s, a, c); }
      if a != p && c == p { BlockOutside(s, a, p, n); }
      if a == p && c != p { BlockOutside(s, c, p, n); }
    }
    forall b | Covers(all, b) ensures Covers(free, b) || exists a :: Owns(s', a, b) {
      if p <= b < p + n {
        assert Owns(s', p, b);
      } else if !Covers(free, b) {
        var a :| Owns(s, a, b);
        assert Owns(s', a, b);
      }
    }
  }

  lemma BlockOutside(s: Arena, a: int, p: int, n: int)
    requires a in s.live && s.live[a] > 0 && n > 0
    requires forall b {:trigger Owns(s, a, b)} :: Owns(s, a, b) ==> !(p <= b < p + n)
    ensures a + s.live[a] <= p || p + n <= a
  {
    assert Owns(s, a, a);
    assert a <= p < a + s.live[a] ==> Owns(s, a, p);
  }

  lemma KfreeInv(s: Arena, a: int)
    requires Inv(s) && a in s.live
    ensures Inv(Next(s, Kfree(a)))
  {
    var n := s.live[a];
    FreeAdds(s.free, a, n);
    var s' := Next(s, Kfree(a));
    forall c | c in s'.live ensures s'.live[c] > 0 && Apart(s'.free, c, s'.live[c]) {
      assert Separate(s, a, c);
    }
    forall c, b | Owns(s', c, b) ensures Covers(s'.all, b) { assert Owns(s, c, b); }
    forall c, d | c in s'.live && d in s'.live ensures Separate(s', c, d) { assert Separate(s, c, d); }
    forall b | Covers(s'.free, b) ensures Covers(s'.all, b) {
      if a <= b < a + n { assert Owns(s, a, b); }
    }
    forall b | Covers(s'.all, b) ensures Covers(s'.free, b) || exists c :: Owns(s', c, b) {
      if !Covers(s'.free, b) {
        var c :| Owns(s, c, b);
        assert Owns(s', c, b);
      }
    }
  }

  lemma SegmentInv(s: Arena, p: int, n: int)
    requires Inv(s) && Allowed(s, Segment(p, n))
    ensures Inv(Next(s, Segment(p, n)))
  {
    FreeAdds(s.all, p, n);
    AddBlock(s, Free(s.all, p, n), s.free, p, n);
  }

  lemma StepInv(s: Arena, op: Op)
    requires Inv(s) && Allowed(s, op)
    ensures Inv(Next(s, op))
  {
    match op
    case Kalloc(n) => KallocInv(s, n);
    case Kfree(a) => KfreeInv(s, a);
    case Segment(p, n) => SegmentInv(s, p, n);
  }

  // ----- what the calls do -----

  /** Exactly the bytes from p to p + n - 1 are free in `less` no longer. */
  ghost predicate BytesTaken(more: seq<Run>, less: seq<Run>, p: int, n: int) {
    && (forall b :: p <= b < p + n ==> Covers(more, b))
    && forall b :: Covers(less, b) <==> Covers(more, b) && !(p <= b < p + n)
  }

  /** The block at p is new. */
  ghost predicate Took(s: Arena, n: int, s': Arena, p: int) {
    p !in s.live && s'.live == s.live[p := n] && BytesTaken(s.free, s'.free, p, n)
  }

  /** A request is served by one new block of that many bytes, which were free, and fails, with no effect,
      if and only if every run is shorter. */
  lemma Allocates(s: Arena, n: int)
    requires Inv(s) && n > 0
    ensures var s' := Next(s, Kalloc(n));
            && s'.all == s.all
            && if forall i :: 0 <= i < |s.free| ==> s.free[i].len < n then s' == s else exists p :: Took(s, n, s', p)
  {
    AllocFails(s.free, n);
    AllocatesAt(s, n);
  }

  lemma AllocatesAt(s: Arena, n: int)
    requires Inv(s) && n > 0
    ensures var a := Alloc(s.free, n).0; a.At? ==> Took(s, n, Next(s, Kalloc(n)), a.addr)
  {
    AllocTakes(s.free, n);
    var a := Alloc(s.free, n).0;
    if a.At? {
      var p := a.addr;
      assert Covers(s.free, p);
      assert p in s.live ==> Owns(s, p, p);
    }
  }

  /** A free ends the block's life and gives back exactly its bytes. */
  lemma Frees(s: Arena, a: int)
    requires Inv(s) && Allowed(s, Kfree(a))
    ensures var s', n := Next(s, Kfree(a)), s.live[a];
            && s'.all == s.all && s'.live == s.live - {a}
            && a !in s'.live && (forall c :: c in s.live && c != a ==> c in s'.live && s'.live[c] == s.live[c])
            && BytesTaken(s'.free, s.free, a, n)
  {
    FreeAdds(s.free, a, s.live[a]);
  }

  /** A fresh segment becomes a block as a whole; nothing that was free is touched. */
  lemma Extends(s: Arena, p: int, n: int)
    requires Inv(s) && Allowed(s, Segment(p, n))
    ensures var s' := Next(s, Segment(p, n));
            && s'.free == s.free && p !in s.live && s'.live == s.live[p := n] && BytesTaken(s'.all, s.all, p, n)
  {
    FreeAdds(s.all, p, n);
    if p in s.live { assert Owns(s, p, p); }
  }

  // ----- runs -----

  ghost predicate Runs(s: Arena, ops: seq<Op>)
    decreases |ops|
  {
    |ops| > 0 ==> Allowed(s, ops[0]) && Runs(Next(s, ops[0]), ops[1..])
  }

  ghost function Exec(s: Arena, ops: seq<Op>): Arena
    requires Runs(s, ops)
    decreases |ops|
  {
    if |ops| == 0 then s else Exec(Next(s, ops[0]), ops[1..])
  }

  lemma InitInv(base: int, size: int)
    requires size > 0
    ensures Inv(Init(base, size))
  {
    assert [Run(base, size)][1..] == [];
  }

  lemma {:induction false} RunInv(s: Arena, ops: seq<Op>)
    requires Inv(s) && Runs(s, ops)
    ensures Inv(Exec(s, ops))
    ensures (forall i :: 0 <= i < |ops| ==> !ops[i].Segment?) ==> Exec(s, ops).all == s.all
    decreases |ops|
  {
    if |ops| > 0 {
      StepInv(s, ops[0]);
      RunInv(Next(s, ops[0]), ops[1..]);
      assert forall i :: 1 <= i < |ops| ==> ops[i] == ops[1..][i - 1];
    }
  }

  /** The free list is a function of the bytes given and the blocks in use: how they came about, in what
      order blocks were allocated and freed, leaves no trace. */
  lemma FreeListDetermined(s: Arena, t: Arena)
    requires Inv(s) && Inv(t) && s.all == t.all && s.live == t.live
    ensures s.free == t.free
  {
    forall b ensures Covers(s.free, b) <==> Covers(t.free, b) {
      FreeIff(s, b);
      FreeIff(t, b);
      assert (exists a :: Owns(s, a, b)) <==> (exists a :: Owns(t, a, b)) by {
        assert forall a {:trigger Owns(s, a, b)} {:trigger Owns(t, a, b)} :: Owns(s, a, b) <==> Owns(t, a, b);
      }
    }
    Unique(s.free, t.free);
  }

  /** With every block freed the free list is exactly the bytes given, however many segments they are. */
  lemma AllFreeAgain(s: Arena)
    requires Inv(s) && s.live == map[]
    ensures s.free == s.all
  {
    forall b ensures Covers(s.free, b) <==> Covers(s.all, b) {
      FreeIff(s, b);
      assert forall a :: !Owns(s, a, b);
    }
    Unique(s.free, s.all);
  }

  lemma FreeIff(s: Arena, b: int)
    requires Inv(s)
    ensures Covers(s.free, b) <==> Covers(s.all, b) && !exists a :: Owns(s, a, b)
  {
  }

  /** After any run in the closed arena that ends with every block freed, the free list is again the one
      initial run. */
  lemma FreeingAllRestores(base: int, size: int, ops: seq<Op>)
    requires size > 0 && Runs(Init(base, size), ops)
    requires forall i :: 0 <= i < |ops| ==> !ops[i].Segment?
    requires Exec(Init(base, size), ops).live == map[]
    ensures Exec(Init(base, size), ops).free == [Run(base, size)]
  {
    InitInv(base, size);
    RunInv(Init(base, size), ops);
    FreeListDetermined(Init(base, size), Exec(Init(base, size), ops));
  }

  /** Such runs there are: from any state with a run that is long enough, a request and the free of the
      block it got lead back. */
  lemma TakeAndGive(s: Arena, n: int)
    requires Inv(s) && n > 0 && exists i :: 0 <= i < |s.free| && s.free[i].len >= n
    ensures exists p :: Took(s, n, Next(s, Kalloc(n)), p) && Runs(s, [Kalloc(n), Kfree(p)])
                        && Exec(s, [Kalloc(n), Kfree(p)]) == s
  {
    Allocates(s, n);
    StepInv(s, Kalloc(n));
    var s1 := Next(s, Kalloc(n));
    var p :| Took(s, n, s1, p);
    Frees(s1, p);
    StepInv(s1, Kfree(p));
    var s2 := Next(s1, Kfree(p));
    assert s2.live == s.live;
    FreeListDetermined(s2, s);
    hide Inv, Next, Took;
    assert [Kalloc(n), Kfree(p)][1..] == [Kfree(p)] && [Kfree(p)][1..] == [];
    assert Runs(s2, []) && Exec(s2, []) == s2;
    assert Runs(s1, [Kfree(p)]) && Exec(s1, [Kfree(p)]) == s2;
  }

  // ----- the pool in memory takes the arena's steps -----

  /** The pool's memory, seen as an arena. */
  ghost predicate Backs(pool: K.Pool, s: Arena)
    reads pool, pool.mem
  {
    && pool.Valid() && pool.runs == s.free && Inv(s)
    && forall a :: a in s.live ==> 0 < a && s.live[a] >= K.UNIT && a + s.live[a] <= pool.mem.Length
  }

  /** `kfree` of a block in use. */
  method FreeIn(pool: K.Pool, a: int, len: int, ghost s: Arena)
    requires Backs(pool, s) && a in s.live && s.live[a] == len
    modifies pool, pool.mem
    ensures Backs(pool, Next(s, Kfree(a)))
  {
    StepInv(s, Kfree(a));
    hide Inv, Free, Covers, Canonical;
    ghost var s' := Next(s, Kfree(a));
    LiveApart(s, a);
    pool.Kfree(a, len);
    assert pool.runs == s'.free;
  }

  lemma LiveApart(s: Arena, a: int)
    requires Inv(s) && a in s.live
    ensures s.live[a] > 0 && Apart(s.free, a, s.live[a])
  {
  }

  /** `kalloc`; the address of the new block, or 0 if every run is too short. */
  method AllocateIn(pool: K.Pool, n: int, ghost s: Arena) returns (p: int)
    requires Backs(pool, s) && n >= K.UNIT && K.Splits(s.free, n)
    modifies pool, pool.mem
    ensures Backs(pool, Next(s, Kalloc(n)))
    ensures if forall i :: 0 <= i < |s.free| ==> s.free[i].len < n then p == 0 else Took(s, n, Next(s, Kalloc(n)), p)
  {
    AllocatesAt(s, n);
    AllocTakes(s.free, n);
    AllocFails(s.free, n);
    StepInv(s, Kalloc(n));
    ghost var a := Alloc(s.free, n).0;
    if a.At? {
      assert Covers(s.free, a.addr + n - 1);
      InMemory(pool.mem.Length, s.free, a.addr + n - 1);
    }
    hide Inv, Alloc, Covers, Canonical, K.Splits;
    p := pool.Kalloc(n);
  }

  lemma {:induction false} InMemory(size: int, rs: seq<Run>, b: int)
    requires K.Fits(size, rs) && Covers(rs, b)
    ensures 0 < b < size
  {
    if !(rs[0].addr <= b < End(rs[0])) {
      assert forall i :: 0 <= i < |rs[1..]| ==> rs[1..][i] == rs[i + 1];
      InMemory(size, rs[1..], b);
    }
  }

  // ----- granularity -----

  ghost predicate Multiples(s: Arena) {
    K.Granular(s.free) && forall a :: a in s.live ==> s.live[a] % K.UNIT == 0
  }

  /** If every request is a multiple of the header's size, then after any run every further such request
      leaves the headers in order. */
  lemma {:induction false} MultiplesSplit(s: Arena, ops: seq<Op>, n: int)
    requires Multiples(s) && Runs(s, ops) && n % K.UNIT == 0
    requires forall i :: 0 <= i < |ops| ==> (ops[i].Kfree? || ops[i].n % K.UNIT == 0)
    ensures Multiples(Exec(s, ops)) && K.Splits(Exec(s, ops).free, n)
    decreases |ops|
  {
    if |ops| > 0 {
      if ops[0].Kfree? {
        K.GranularFree(s.free, ops[0].a, s.live[ops[0].a]);
      } else {
        K.GranularSplits(s.free, ops[0].n);
      }
      assert forall i :: 0 <= i < |ops[1..]| ==> ops[1..][i] == ops[i + 1];
      MultiplesSplit(Next(s, ops[0]), ops[1..], n);
    } else {
      K.GranularSplits(s.free, n);
    }
  }

  // ----- blocks freed with less than they were allocated with -----

  /** What scheddev/lwt.c allocates for a thread beyond what it frees when the thread is joined. */
  const EXTRA := 100

  ghost function Size(rs: seq<Run>): int {
    if |rs| == 0 then 0 else rs[0].len + Size(rs[1..])
  }

  lemma {:induction false} SizeAlloc(rs: seq<Run>, n: int)
    ensures var (a, rest) := Alloc(rs, n); Size(rest) == Size(rs) - if a == Failed then 0 else n
  {
    if |rs| > 0 {
      SizeAlloc(rs[1..], n);
      var (a, rest) := Alloc(rs, n);
      assert rs[0].len > n ==> rest[1..] == rs[1..];
      assert rs[0].len < n ==> rest[1..] == Alloc(rs[1..], n).1;
    }
  }

  lemma {:induction false} SizeFree(rs: seq<Run>, p: int, len: int)
    ensures Size(Free(rs, p, len)) == Size(rs) + len
  {
    var f := Free(rs, p, len);
    if |rs| == 0 || rs[0].addr > p + len {
      assert f[1..] == rs;
    } else if p + len == rs[0].addr {
      assert f[1..] == rs[1..];
    } else if End(rs[0]) == p {
      if |rs| > 1 && rs[1].addr == p + len {
        assert f[1..] == rs[2..] && rs[1..][1..] == rs[2..];
      } else {
        assert f[1..] == rs[1..];
      }
    } else {
      SizeFree(rs[1..], p, len);
      assert f[1..] == Free(rs[1..], p, len);
    }
  }

  lemma {:induction false} SizePositive(rs: seq<Run>)
    requires Canonical(rs)
    ensures Size(rs) >= 0
  {
    if |rs| > 0 { SizePositive(rs[1..]); }
  }

  /** The free list after k threads have been created and joined, one after the other; None if there was no
      room for one of them.  A control block takes `block` bytes and the extra ones. */
  ghost function Joined(rs: seq<Run>, block: int, k: nat): Option<seq<Run>> {
    if k == 0 then Some(rs)
    else
      match Joined(rs, block, k - 1)
      case None => None
      case Some(free) =>
        var (a, rest) := Alloc(free, block + EXTRA);
        if a == Failed then None else Some(Free(rest, a.addr, block))
  }

  /** Every join loses 100 bytes. */
  lemma {:induction false} JoinLoses(rs: seq<Run>, block: int, k: nat)
    requires Canonical(rs) && block > 0
    ensures var r := Joined(rs, block, k);
            r.Some? ==> Canonical(r.value) && 0 <= Size(r.value) == Size(rs) - k * 100
  {
    if k == 0 {
      SizePositive(rs);
    } else {
      JoinLoses(rs, block, k - 1);
      var before := Joined(rs, block, k - 1);
      if before.Some? {
        AllocTakes(before.value, block + EXTRA);
        SizeAlloc(before.value, block + EXTRA);
        var (a, rest) := Alloc(before.value, block + EXTRA);
        if a.At? {
          FreeAdds(rest, a.addr, block);
          SizeFree(rest, a.addr, block);
          SizePositive(Free(rest, a.addr, block));
        }
      }
    }
  }

  /** So in a closed arena creating and joining threads, with never more than one alive, runs out of
      memory. */
  lemma JoinsRunOut(rs: seq<Run>, block: int)
    requires Canonical(rs) && block > 0
    ensures Size(rs) >= 0 && Joined(rs, block, Size(rs) / 100 + 1) == None
  {
    SizePositive(rs);
    JoinLoses(rs, block, Size(rs) / EXTRA + 1);
  }
}
