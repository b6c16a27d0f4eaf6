/** kalloc.c in memory: the free list threads through the free bytes themselves.

    A cell of `mem` holds the machine word stored at that byte address.  A free run keeps its `next`
    pointer in its first word and its length in its second, so blocks in use are never looked at.
  */
module Kalloc {
  import opened FreeList

  /** `sizeof(struct run)` with 4-byte pointers: what a run must hold for its header to fit into it. */
  const UNIT := 8
  const NEXT := 0
  const LEN := 4

  ghost function Addr(rs: seq<Run>, i: nat): int {
    if i < |rs| then rs[i].addr else 0
  }

  /** The runs lie inside the memory, each long enough for its header. */
  ghost predicate Fits(size: int, rs: seq<Run>) {
    forall i :: 0 <= i < |rs| ==>
      0 < rs[i].addr && End(rs[i]) <= size && rs[i].len >= UNIT
  }

  ghost predicate Header(m: seq<int>, rs: seq<Run>, i: nat)
    requires i < |rs| && Fits(|m|, rs)
  {
    m[rs[i].addr + NEXT] == Addr(rs, i + 1) && m[rs[i].addr + LEN] == rs[i].len
  }

  /** The list that starts at `first` is rs. */
  ghost predicate Stored(m: seq<int>, first: int, rs: seq<Run>) {
    && Canonical(rs) && Fits(|m|, rs)
    && first == Addr(rs, 0)
    && (forall i {:trigger Header(m, rs, i)} :: 0 <= i < |rs| ==> Header(m, rs, i))
  }

  lemma {:induction false} Ascending(rs: seq<Run>, i: nat, j: nat)
    requires Canonical(rs) && i < j < |rs|
    ensures rs[i].len > 0 && End(rs[i]) < rs[j].addr
  {
    if i > 0 {
      Ascending(rs[1..], i - 1, j - 1);
    } else if j > 1 {
      Ascending(rs, 0, j - 1);
      LastTwo(rs, j);
    }
  }

  lemma {:induction false} LastTwo(rs: seq<Run>, j: nat)
    requires Canonical(rs) && 1 <= j < |rs|
    ensures rs[j - 1].len > 0 && End(rs[j - 1]) < rs[j].addr && rs[j].len > 0
  {
    if j > 1 { LastTwo(rs[1..], j - 1); }
  }

  /** The two writes that replace the runs from i to j by mid: the link that leads to the new run, and the
      new run's header. */
  ghost predicate Spliced(m: seq<int>, first: int, rs: seq<Run>, i: nat, j: nat, mid: seq<Run>, m': seq<int>, first': int)
    requires Stored(m, first, rs) && i <= j <= |rs| && |mid| <= 1 && |m'| == |m|
  {
    var rs' := rs[..i] + mid + rs[j..];
    && Canonical(rs') && Fits(|m|, rs')
    && (if i == 0 then first' == Addr(rs', 0)
        else first' == first && m'[rs[i - 1].addr + NEXT] == Addr(rs', i))
    && (|mid| == 1 ==> Header(m', rs', i))
    && (forall x :: 0 <= x < |m| ==>
          m'[x] == m[x] || (i > 0 && x == rs[i - 1].addr + NEXT)
          || (|mid| == 1 && (x == mid[0].addr + NEXT || x == mid[0].addr + LEN)))
  }

  /** A run that the writes do not concern keeps its header. */
  lemma SplicedElsewhere(m: seq<int>, first: int, rs: seq<Run>, i: nat, j: nat, mid: seq<Run>, m': seq<int>,
                         first': int, k: nat)
    requires Stored(m, first, rs) && i <= j <= |rs| && |mid| <= 1 && |m'| == |m|
    requires Spliced(m, first, rs, i, j, mid, m', first')
    requires k + 1 < i || i + |mid| <= k < i + |mid| + |rs| - j
    ensures Header(m', rs[..i] + mid + rs[j..], k)
  {
    hide Canonical;
    var rs' := rs[..i] + mid + rs[j..];
    var k0 := if k < i then k else k - |mid| + j - i;
    assert rs'[k] == rs[k0] && Header(m, rs, k0);
    if k < i {
      if |mid| == 1 { Ascending(rs', k, i); }
      Ascending(rs, k, i - 1);
    } else {
      if |mid| == 1 { Ascending(rs', i, k); }
      if i > 0 { Ascending(rs', i - 1, k); }
    }
  }

  lemma SplicedBefore(m: seq<int>, first: int, rs: seq<Run>, i: nat, j: nat, mid: seq<Run>, m': seq<int>, first': int)
    requires Stored(m, first, rs) && 0 < i <= j <= |rs| && |mid| <= 1 && |m'| == |m|
    requires Spliced(m, first, rs, i, j, mid, m', first')
    ensures Header(m', rs[..i] + mid + rs[j..], i - 1)
  {
    hide Canonical;
    var rs' := rs[..i] + mid + rs[j..];
    assert rs'[i - 1] == rs[i - 1] && Header(m, rs, i - 1);
    if |mid| == 1 { Ascending(rs', i - 1, i); }
  }

  /** After them the list is stored with mid in place. */
  lemma Splice(m: seq<int>, first: int, rs: seq<Run>, i: nat, j: nat, mid: seq<Run>, m': seq<int>, first': int)
    requires Stored(m, first, rs) && i <= j <= |rs| && |mid| <= 1 && |m'| == |m|
    requires Spliced(m, first, rs, i, j, mid, m', first')
    ensures Stored(m', first', rs[..i] + mid + rs[j..])
  {
    var rs' := rs[..i] + mid + rs[j..];
    assert i > 0 && |rs'| > 0 ==> rs'[0] == rs[0];
    forall k | 0 <= k < |rs'| ensures Header(m', rs', k) {
      hide Canonical;
      if k + 1 < i || i + |mid| <= k {
        SplicedElsewhere(m, first, rs, i, j, mid, m', first', k);
      } else if k + 1 == i {
        SplicedBefore(m, first, rs, i, j, mid, m', first');
      }
    }
  }

  lemma {:induction false} CoversAt(rs: seq<Run>, k: nat, b: int)
    requires k < |rs| && rs[k].addr <= b < End(rs[k])
    ensures Covers(rs, b)
  {
    if k > 0 { CoversAt(rs[1..], k - 1, b); }
  }

  // ----- which requests leave the list in order -----

  /** The first run that is long enough is used up, or keeps room for its header. */
  ghost predicate Splits(rs: seq<Run>, n: int) {
    |rs| > 0 ==>
      if rs[0].len < n then Splits(rs[1..], n) else rs[0].len == n || rs[0].len - n >= UNIT
  }

  /** Serving a request leaves a list whose headers all fit into their runs if and only if it does so. */
  lemma {:induction false} SplitsIff(size: int, rs: seq<Run>, n: int)
    requires Fits(size, rs) && n > 0
    ensures Splits(rs, n) <==> Fits(size, Alloc(rs, n).1)
  {
    if |rs| > 0 {
      var rest := Alloc(rs, n).1;
      assert forall i :: 0 <= i < |rs[1..]| ==> rs[1..][i] == rs[i + 1];
      if rs[0].len < n {
        SplitsIff(size, rs[1..], n);
        var tail := Alloc(rs[1..], n).1;
        assert rest == [rs[0]] + tail;
        assert forall i :: 0 <= i < |tail| ==> rest[i + 1] == tail[i];
      } else if rs[0].len > n {
        assert rest[0].len == rs[0].len - n;
      }
    }
  }

  /** The header takes 8 bytes: a request is served from the first run that is long enough, and it is in
      order if that run is used up or keeps 8 bytes. */
  lemma {:induction false} SplitsMeans(rs: seq<Run>, n: int, i: nat)
    requires i < |rs| && rs[i].len >= n && forall k :: 0 <= k < i ==> rs[k].len < n
    ensures Splits(rs, n) <==> rs[i].len == n || rs[i].len >= n + 8
  {
    if i > 0 { SplitsMeans(rs[1..], n, i - 1); }
  }

  /** The repository makes such requests: a group takes 12 bytes.  Of a run of 16 that leaves 4, and the
      block handed out begins at the word in which the run keeps its length. */
  lemma GroupBreaksList(size: int, p: int)
    requires 0 < p && p + 16 <= size
    ensures var rs := [Run(p, 16)]; var (a, rest) := Alloc(rs, 12);
            && Fits(size, rs) && !Splits(rs, 12) && !Fits(size, rest)
            && a == FreeList.At(p + LEN) && rest == [Run(p, 4)]
  {
    SplitsIff(size, [Run(p, 16)], 12);
  }

  /** All lengths are multiples of the header's. */
  ghost predicate Granular(rs: seq<Run>) {
    forall i :: 0 <= i < |rs| ==> rs[i].len % UNIT == 0
  }

  lemma {:induction false} GranularSplits(rs: seq<Run>, n: int)
    requires Granular(rs) && n % UNIT == 0
    ensures Splits(rs, n) && Granular(Alloc(rs, n).1)
  {
    if |rs| > 0 {
      assert forall i :: 0 <= i < |rs[1..]| ==> rs[1..][i] == rs[i + 1];
      GranularSplits(rs[1..], n);
    }
  }

  lemma {:induction false} GranularFree(rs: seq<Run>, p: int, len: int)
    requires Granular(rs) && len % UNIT == 0
    ensures Granular(Free(rs, p, len))
  {
    if |rs| > 0 {
      assert forall i :: 0 <= i < |rs[1..]| ==> rs[1..][i] == rs[i + 1];
      GranularFree(rs[1..], p, len);
    }
  }

  class Pool {
    var freelist: int
    const mem: array<int>
    ghost var runs: seq<Run>

    ghost predicate Valid()
      reads this, mem
    {
      Stored(mem[..], freelist, runs)
    }

    /** The words that the pool may have changed lie in bytes that are free now. */
    twostate predicate OnlyFreeWritten()
      reads this, mem
    {
      forall x :: 0 <= x < mem.Length && !Covers(runs, x) ==> mem[x] == old(mem[x])
    }

    /** `kinit`: the segment of `size` bytes at `base` is freed into the empty list. */
    constructor (base: nat, size: nat)
      requires base > 0 && size >= UNIT
      ensures Valid() && runs == Free([], base, size) && mem.Length == base + size && fresh(mem)
    {
      mem := new int[base + size];
      freelist := 0;
      runs := [];
      new;
      Kfree(base, size);
    }

    /** `*rp = v`, where rp is `&freelist` (prev = 0) or the `next` field of the run at prev. */
    method SetLink(prev: int, v: int)
      requires 0 <= prev < mem.Length
      modifies `freelist, mem
      ensures if prev == 0 then freelist == v && mem[..] == old(mem[..])
              else freelist == old(freelist) && mem[..] == old(mem[..])[prev + NEXT := v]
    {
      if prev == 0 {
        freelist := v;
      } else {
        mem[prev + NEXT] := v;
      }
    }

    /** Where a scan stands: r is run i, and prev names the link that leads to it. */
    ghost predicate Cursor(i: nat, prev: int, r: int)
      reads `runs
    {
      i <= |runs| && r == Addr(runs, i) && prev == if i == 0 then 0 else runs[i - 1].addr
    }

    /** The list after runs i to j have been replaced by mid. */
    ghost function Replaced(i: nat, j: nat, mid: seq<Run>): seq<Run>
      requires i <= j <= |runs|
      reads `runs
    {
      runs[..i] + mid + runs[j..]
    }

    lemma ReplacedFits(i: nat, j: nat, mid: seq<Run>)
      requires Valid() && i <= j <= |runs| && |mid| <= 1 && Fits(mem.Length, mid)
      ensures Fits(mem.Length, Replaced(i, j, mid))
    {
      assert forall k :: 0 <= k < |mid| ==> mid[k] == mid[0];
    }

    /** The scan of `kfree` has passed i runs that it leaves as they are. */
    ghost predicate Scanned(i: nat, v: int, len: int)
      reads `runs
    {
      i <= |runs| && Free(runs, v, len) == runs[..i] + Free(runs[i..], v, len)
    }

    lemma ScanStarts(v: int, len: int)
      ensures Scanned(0, v, len)
    {
      assert runs[0..] == runs;
    }

    /** What the scan finds out about run i. */
    lemma FreeHere(i: nat, v: int, len: int)
      requires Valid() && len > 0 && Scanned(i, v, len)
      ensures i == |runs| || runs[i].addr > v + len ==> Free(runs, v, len) == Replaced(i, i, [Run(v, len)])
      ensures i < |runs| && runs[i].addr == v + len ==>
                Free(runs, v, len) == Replaced(i, i + 1, [Run(v, len + runs[i].len)])
      ensures i < |runs| && runs[i].addr < v + len && End(runs[i]) != v ==> Scanned(i + 1, v, len)
    {
      if i < |runs| { assert runs[i..][0] == runs[i] && runs[i..][1..] == runs[i + 1..]; }
    }

    /** Reading the header of run i. */
    lemma HeaderAt(i: nat)
      requires Valid() && i < |runs|
      ensures var r := runs[i].addr;
              && 0 < r && r + UNIT <= mem.Length && runs[i].len >= UNIT
              && End(runs[i]) <= mem.Length
              && mem[r + LEN] == runs[i].len && mem[r + NEXT] == Addr(runs, i + 1)
              && (i + 1 < |runs| ==>
                    && 0 < runs[i + 1].addr && runs[i + 1].len >= UNIT && End(runs[i + 1]) <= mem.Length)
    {
      assert Header(mem[..], runs, i);
    }

    /** The block from v on is inside the memory, long enough for a header, and none of its bytes is free. */
    ghost predicate Freeable(v: int, len: int)
      reads `runs
    {
      0 < v && len >= UNIT && v + len <= mem.Length && Apart(runs, v, len)
    }

    lemma FreeFacts(v: int, len: int)
      requires Valid() && Freeable(v, len)
      ensures len > 0 && 0 < v && v + len <= mem.Length && Canonical(Free(runs, v, len))
      ensures freelist == Addr(runs, 0) && (|runs| > 0 ==> freelist > 0)
      ensures Fits(mem.Length, [Run(v, len)])
    {
      FreeAdds(runs, v, len);
    }

    /** The block at v becomes a run of its own in front of run j, or takes over run i (j = i + 1). */
    method PutRun(prev: int, r: int, v: int, newLen: int, next: int, ghost i: nat, ghost j: nat)
      requires Valid() && Cursor(i, prev, r) && i <= j <= |runs| && next == Addr(runs, j)
      requires Fits(mem.Length, [Run(v, newLen)]) && Canonical(Replaced(i, j, [Run(v, newLen)]))
      modifies this, mem
      ensures Valid() && runs == old(Replaced(i, j, [Run(v, newLen)]))
      ensures OnlyFreeWritten()
    {
      hide Canonical, Covers;
      ghost var m, first, mid := mem[..], freelist, [Run(v, newLen)];
      ghost var target := Replaced(i, j, mid);
      ReplacedFits(i, j, mid);
      if i > 0 { Ascending(target, i - 1, i); }
      mem[v + LEN] := newLen;
      mem[v + NEXT] := next;
      SetLink(prev, v);
      Splice(m, first, runs, i, j, mid, mem[..], freelist);
      runs := target;
      CoversAt(runs, i, v + NEXT);
      CoversAt(runs, i, v + LEN);
      if i > 0 { CoversAt(runs, i - 1, prev + NEXT); }
    }

    /** The header of run i now describes mid, which starts at the same address and replaces the runs up
        to j. */
    ghost method Reheaded(i: nat, j: nat, mid: Run, m: seq<int>)
      requires i < j <= |runs| && |m| == mem.Length && Stored(m, freelist, runs)
      requires mid.addr == runs[i].addr && Fits(mem.Length, [mid]) && Canonical(Replaced(i, j, [mid]))
      requires mem[mid.addr + NEXT] == Addr(runs, j) && mem[mid.addr + LEN] == mid.len
      requires forall x :: 0 <= x < mem.Length ==>
                 mem[x] == m[x] || x == mid.addr + NEXT || x == mid.addr + LEN
      modifies `runs
      ensures Valid() && runs == old(Replaced(i, j, [mid]))
      ensures Covers(runs, mid.addr + NEXT) && Covers(runs, mid.addr + LEN)
    {
      hide Canonical, Covers;
      var target := Replaced(i, j, [mid]);
      assert forall k :: 0 <= k < |target| ==>
          target[k] == if k < i then runs[k] else if k == i then mid else runs[k - i - 1 + j];
      if i > 0 {
        Ascending(target, i - 1, i);
        assert Header(m, runs, i - 1);
      }
      Splice(m, freelist, runs, i, j, [mid], mem[..], freelist);
      runs := target;
      CoversAt(runs, i, mid.addr + NEXT);
      CoversAt(runs, i, mid.addr + LEN);
    }

    /** What `Free` makes of a block that starts where run i ends. */
    lemma GrownScan(i: nat, len: int)
      requires i < |runs| && len > 0 && runs[i].len > 0 && Scanned(i, End(runs[i]), len)
      ensures var r, f := runs[i], Free(runs, End(runs[i]), len);
              if i + 1 < |runs| && runs[i + 1].addr == End(r) + len then
                f == Replaced(i, i + 2, [Run(r.addr, r.len + len + runs[i + 1].len)])
              else
                f == Replaced(i, i + 1, [Run(r.addr, r.len + len)])
    {
      var tail := runs[i..];
      assert tail[0] == runs[i] && tail[1..] == runs[i + 1..];
      if i + 1 < |runs| { assert tail[1] == runs[i + 1] && tail[2..] == runs[i + 2..]; }
    }

    /** The three ways `kfree` ends.  No run lies at or next to the block: it becomes a run. */
    method InsertAt(prev: int, r: int, v: int, len: int, ghost i: nat)
      requires Valid() && Freeable(v, len) && Scanned(i, v, len) && Cursor(i, prev, r)
      requires i < |runs| ==> runs[i].addr > v + len
      modifies this, mem
      ensures Valid() && runs == Free(old(runs), v, len)
      ensures OnlyFreeWritten()
    {
      hide Canonical, Free, Replaced, Scanned, Stored, Covers;
      FreeFacts(v, len);
      FreeHere(i, v, len);
      PutRun(prev, r, v, len, r, i, i);
    }

    /** The block ends where run i starts: it takes the run's place. */
    method TakeOver(prev: int, r: int, v: int, len: int, ghost i: nat)
      requires Valid() && Freeable(v, len) && Scanned(i, v, len) && Cursor(i, prev, r)
      requires i < |runs| && runs[i].addr == v + len
      modifies this, mem
      ensures Valid() && runs == Free(old(runs), v, len)
      ensures OnlyFreeWritten()
    {
      hide Canonical, Free, Replaced, Scanned, Stored, Covers;
      FreeFacts(v, len);
      FreeHere(i, v, len);
      HeaderAt(i);
      PutRun(prev, r, v, len + mem[r + LEN], mem[r + NEXT], i, i + 1);
    }

    /** Run i ends where the block starts: it grows, and swallows the next run if that one starts where
        the block ends. */
    method Grow(r: int, v: int, len: int, ghost i: nat)
      requires Valid() && Freeable(v, len) && Scanned(i, v, len)
      requires i < |runs| && r == runs[i].addr && End(runs[i]) == v
      modifies this, mem
      ensures Valid() && runs == Free(old(runs), v, len)
      ensures OnlyFreeWritten()
    {
      hide Canonical, Free, Replaced, Scanned, Stored, Covers;
      ghost var m := mem[..];
      FreeFacts(v, len);
      HeaderAt(i);
      GrownScan(i, len);
      if i + 1 < |runs| {
        HeaderAt(i + 1);
      }
      mem[r + LEN] := mem[r + LEN] + len;
      var next := mem[r + NEXT];
      if next != 0 && next == v + len {
        mem[r + LEN] := mem[r + LEN] + mem[next + LEN];
        mem[r + NEXT] := mem[next + NEXT];
        Reheaded(i, i + 2, Run(r, runs[i].len + len + runs[i + 1].len), m);
      } else {
        Reheaded(i, i + 1, Run(r, runs[i].len + len), m);
      }
    }

    /** `kfree`. */
    method Kfree(v: int, len: int)
      requires Valid() && Freeable(v, len)
      modifies this, mem
      ensures Valid() && runs == Free(old(runs), v, len)
      ensures OnlyFreeWritten()
    {
      hide Valid, Freeable, Canonical, Covers, Scanned;
      FreeFacts(v, len);
      ScanStarts(v, len);
      var pend := v + len;
      var prev, r := 0, freelist;
      ghost var i := 0;
      while r != 0 && r <= pend
        invariant Cursor(i, prev, r) && (i < |runs| ==> r > 0)
        invariant Valid() && unchanged(this) && unchanged(mem)
        invariant Scanned(i, v, len)
        decreases |runs| - i
      {
        HeaderAt(i);
        var rend := r + mem[r + LEN];
        if pend == r {
          TakeOver(prev, r, v, len, i);
          return;
        }
        if rend == v {
          Grow(r, v, len, i);
          return;
        }
        FreeHere(i, v, len);
        prev, r := r, mem[r + NEXT];
        i := i + 1;
      }
      InsertAt(prev, r, v, len, i);
    }

    /** The scan of `kalloc` has passed i runs that are too short. */
    ghost predicate TooShort(i: nat, n: int)
      reads `runs
    {
      && i <= |runs| && (Splits(runs, n) <==> Splits(runs[i..], n))
      && Alloc(runs, n).0 == Alloc(runs[i..], n).0
      && Alloc(runs, n).1 == runs[..i] + Alloc(runs[i..], n).1
    }

    lemma AllocStarts(n: int)
      ensures TooShort(0, n)
    {
      assert runs[0..] == runs;
    }

    /** What the scan finds out about run i. */
    lemma AllocHere(i: nat, n: int)
      requires TooShort(i, n)
      ensures i == |runs| ==> Splits(runs, n) && Alloc(runs, n) == (Failed, runs)
      ensures i < |runs| && runs[i].len == n ==>
                Splits(runs, n) && Alloc(runs, n) == (FreeList.At(runs[i].addr), Replaced(i, i + 1, []))
      ensures i < |runs| && runs[i].len > n ==>
                && (Splits(runs, n) <==> runs[i].len - n >= UNIT)
                && Alloc(runs, n) == (FreeList.At(End(runs[i]) - n),
                                      Replaced(i, i + 1, [Run(runs[i].addr, runs[i].len - n)]))
      ensures i < |runs| && runs[i].len < n ==> TooShort(i + 1, n)
    {
      var (a, rest) := Alloc(runs, n);
      if i < |runs| {
        assert runs[i..][0] == runs[i] && runs[i..][1..] == runs[i + 1..];
        assert runs[i].len == n ==> rest == Replaced(i, i + 1, []);
        assert runs[i].len > n ==> rest == Replaced(i, i + 1, [Run(runs[i].addr, runs[i].len - n)]);
      } else {
        assert rest == runs;
      }
    }

    lemma AllocFacts(n: int)
      requires Valid() && n > 0
      ensures Canonical(Alloc(runs, n).1)
      ensures freelist == Addr(runs, 0) && (|runs| > 0 ==> freelist > 0)
    {
      AllocTakes(runs, n);
    }

    /** `*rp = r->next`: run i leaves the list. */
    method DropRun(prev: int, next: int, ghost i: nat)
      requires Valid() && i < |runs| && prev == (if i == 0 then 0 else runs[i - 1].addr)
      requires next == Addr(runs, i + 1) && Canonical(Replaced(i, i + 1, []))
      modifies this, mem
      ensures Valid() && runs == old(Replaced(i, i + 1, []))
      ensures OnlyFreeWritten()
    {
      hide Canonical;
      ghost var m, first := mem[..], freelist;
      ReplacedFits(i, i + 1, []);
      if i > 0 { HeaderAt(i - 1); }
      SetLink(prev, next);
      Splice(m, first, runs, i, i + 1, [], mem[..], freelist);
      runs := Replaced(i, i + 1, []);
      if i > 0 { CoversAt(runs, i - 1, prev + NEXT); }
    }

    /** Run i gives up its last n bytes: its length word is all that changes.  If its header does not fit
        into what is left, it is a run only in name. */
    method Shrink(r: int, n: int, ghost i: nat) returns (a: int)
      requires Valid() && i < |runs| && r == runs[i].addr && 0 < n < runs[i].len
      requires Canonical(Replaced(i, i + 1, [Run(r, runs[i].len - n)]))
      modifies this, mem
      ensures runs == old(Replaced(i, i + 1, [Run(r, runs[i].len - n)]))
      ensures a == old(End(runs[i])) - n
      ensures freelist == old(freelist) && 0 <= r + LEN < mem.Length
      ensures mem[..] == old(mem[..])[r + LEN := old(runs[i].len) - n]
      ensures Valid() <==> old(runs[i].len) - n >= UNIT
      ensures Valid() ==> OnlyFreeWritten()
    {
      hide Canonical, Covers, Stored;
      ghost var m, len := mem[..], runs[i].len;
      HeaderAt(i);
      mem[r + LEN] := mem[r + LEN] - n;
      a := r + mem[r + LEN];
      if len - n >= UNIT {
        Reheaded(i, i + 1, Run(r, len - n), m);
      } else {
        runs := Replaced(i, i + 1, [Run(r, len - n)]);
        NoRoom(i);
      }
    }

    lemma NoRoom(i: nat)
      requires i < |runs| && runs[i].len < UNIT
      ensures !Valid()
    {
    }

    /** Run i served a request and kept less than its header takes. */
    twostate predicate CutShort(n: int, i: nat)
      reads this, mem
    {
      && i < |old(runs)| && 0 < old(runs)[i].len - n < UNIT
      && freelist == old(freelist) && 0 <= old(runs)[i].addr + LEN < mem.Length
      && mem[..] == old(mem[..])[old(runs)[i].addr + LEN := old(runs)[i].len - n]
    }

    /** `kalloc`; the result 0 means that no run is long enough.  The list is in order afterwards if and only
        if the run that serves the request keeps no bytes or enough of them for its header. */
    method Kalloc(n: int) returns (a: int)
      requires Valid() && n > 0
      modifies this, mem
      ensures runs == Alloc(old(runs), n).1
      ensures match Alloc(old(runs), n).0
              case Failed => a == 0
              case At(p) => a == p && p > 0
      ensures Valid() <==> Splits(old(runs), n)
      ensures Valid() ==> OnlyFreeWritten()
      ensures !Valid() ==> exists i: nat :: CutShort(n, i)
    {
      hide Valid, Canonical, Covers, TooShort, Alloc, Splits;
      AllocFacts(n);
      AllocStarts(n);
      var prev, r := 0, freelist;
      ghost var i := 0;
      while r != 0
        invariant Cursor(i, prev, r) && (i < |runs| ==> r > 0)
        invariant Valid() && unchanged(this) && unchanged(mem)
        invariant TooShort(i, n)
        decreases |runs| - i
      {
        HeaderAt(i);
        AllocHere(i, n);
        if mem[r + LEN] == n {
          DropRun(prev, mem[r + NEXT], i);
          return r;
        }
        if mem[r + LEN] > n {
          a := Shrink(r, n, i);
          assert !Valid() ==> CutShort(n, i);
          return;
        }
        prev, r := r, mem[r + NEXT];
        i := i + 1;
      }
      AllocHere(i, n);
      a := 0;
    }
  }
}
