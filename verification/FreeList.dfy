/** The free list of kalloc.c as a value: the runs of free bytes in the order of their addresses.

    `Free` and `Alloc` decide what the loops of `kfree` and `kalloc` decide, run by run.  The main result
    is that the list is at all times the one canonical list of its set of free bytes.
  */
module FreeList {

  /** The bytes from addr to addr + len - 1. */
  datatype Run = Run(addr: int, len: int)

  ghost function End(r: Run): int {
    r.addr + r.len
  }

  /** Every run is non-empty and lies strictly below the next one, with a gap between the two. */
  ghost predicate Canonical(rs: seq<Run>) {
    |rs| > 0 ==> rs[0].len > 0 && (|rs| > 1 ==> End(rs[0]) < rs[1].addr) && Canonical(rs[1..])
  }

  ghost predicate Covers(rs: seq<Run>, b: int) {
    |rs| > 0 && (rs[0].addr <= b < End(rs[0]) || Covers(rs[1..], b))
  }

  ghost predicate Apart(rs: seq<Run>, p: int, len: int) {
    forall b :: p <= b < p + len ==> !Covers(rs, b)
  }

  // ----- kfree -----

  ghost function Free(rs: seq<Run>, p: int, len: int): seq<Run> {
    if |rs| == 0 || rs[0].addr > p + len then [Run(p, len)] + rs
    else if p + len == rs[0].addr then [Run(p, len + rs[0].len)] + rs[1..]
    else if End(rs[0]) == p then
      if |rs| > 1 && rs[1].addr == p + len then
        [Run(rs[0].addr, rs[0].len + len + rs[1].len)] + rs[2..]
      else
        [Run(rs[0].addr, rs[0].len + len)] + rs[1..]
    else [rs[0]] + Free(rs[1..], p, len)
  }

  lemma {:induction false} CoversAbove(rs: seq<Run>, b: int)
    requires Canonical(rs) && Covers(rs, b)
    ensures rs[0].addr <= b
  {
    if !(rs[0].addr <= b < End(rs[0])) { CoversAbove(rs[1..], b); }
  }

  /** Freeing bytes that were not free adds exactly these bytes and keeps the list canonical. */
  lemma {:induction false} FreeAdds(rs: seq<Run>, p: int, len: int)
    requires Canonical(rs) && len > 0 && Apart(rs, p, len)
    ensures Canonical(Free(rs, p, len))
    ensures Free(rs, p, len)[0].addr == if |rs| > 0 && rs[0].addr < p then rs[0].addr else p
    ensures forall b :: Covers(Free(rs, p, len), b) <==> Covers(rs, b) || p <= b < p + len
  {
    if |rs| == 0 || rs[0].addr > p + len {
      assert ([Run(p, len)] + rs)[1..] == rs;
    } else if p + len == rs[0].addr {
      assert ([Run(p, len + rs[0].len)] + rs[1..])[1..] == rs[1..];
    } else {
      assert Covers(rs, rs[0].addr);
      assert rs[0].addr <= p < End(rs[0]) ==> Covers(rs, p);
      assert End(rs[0]) <= p;
      if End(rs[0]) == p {
        if |rs| > 1 && rs[1].addr == p + len {
          var r := [Run(rs[0].addr, rs[0].len + len + rs[1].len)] + rs[2..];
          assert r[1..] == rs[2..] && rs[1..][1..] == rs[2..];
        } else {
          var r := [Run(rs[0].addr, rs[0].len + len)] + rs[1..];
          assert r[1..] == rs[1..];
          if |rs| > 1 { assert Covers(rs[1..], rs[1].addr) && Covers(rs, rs[1].addr); }
        }
      } else {
        forall b | p <= b < p + len ensures !Covers(rs[1..], b) { assert !Covers(rs, b); }
        FreeAdds(rs[1..], p, len);
        var f := Free(rs[1..], p, len);
        assert ([rs[0]] + f)[1..] == f;
      }
    }
  }

  // ----- one list per set of bytes -----

  lemma {:induction false} Unique(x: seq<Run>, y: seq<Run>)
    requires Canonical(x) && Canonical(y) && forall b :: Covers(x, b) <==> Covers(y, b)
    ensures x == y
  {
    if |x| > 0 && |y| > 0 {
      assert Covers(x, x[0].addr) && Covers(y, y[0].addr);
      CoversAbove(x, y[0].addr);
      CoversAbove(y, x[0].addr);
      HeadEnds(x);
      HeadEnds(y);
      forall b ensures Covers(x[1..], b) <==> Covers(y[1..], b) {
        TailCovers(x, b);
        TailCovers(y, b);
      }
      Unique(x[1..], y[1..]);
    } else if |x| > 0 {
      assert Covers(x, x[0].addr);
    } else if |y| > 0 {
      assert Covers(y, y[0].addr);
    }
  }

  lemma HeadEnds(x: seq<Run>)
    requires Canonical(x) && |x| > 0
    ensures !Covers(x, End(x[0])) && forall b :: x[0].addr <= b < End(x[0]) ==> Covers(x, b)
  {
    if Covers(x[1..], End(x[0])) { CoversAbove(x[1..], End(x[0])); }
  }

  lemma TailCovers(x: seq<Run>, b: int)
    requires Canonical(x) && |x| > 0
    ensures Covers(x[1..], b) <==> Covers(x, b) && b >= End(x[0])
  {
    if Covers(x[1..], b) { CoversAbove(x[1..], b); }
  }

  /** The order of two frees does not matter. */
  lemma FreeCommutes(rs: seq<Run>, p: int, m: int, q: int, n: int)
    requires Canonical(rs) && m > 0 && n > 0 && Apart(rs, p, m) && Apart(rs, q, n)
    requires p + m <= q || q + n <= p
    ensures Free(Free(rs, p, m), q, n) == Free(Free(rs, q, n), p, m)
  {
    FreeAdds(rs, p, m);
    FreeAdds(rs, q, n);
    FreeAdds(Free(rs, p, m), q, n);
    FreeAdds(Free(rs, q, n), p, m);
    Unique(Free(Free(rs, p, m), q, n), Free(Free(rs, q, n), p, m));
  }

  // ----- kalloc -----

  /** The address that `kalloc` returns, 0 standing for none. */
  datatype Allocated = Failed | At(addr: int)

  /** First fit; a longer run gives up its last bytes. */
  ghost function Alloc(rs: seq<Run>, n: int): (Allocated, seq<Run>) {
    if |rs| == 0 then (Failed, rs)
    else if rs[0].len == n then (At(rs[0].addr), rs[1..])
    else if rs[0].len > n then (At(End(rs[0]) - n), [Run(rs[0].addr, rs[0].len - n)] + rs[1..])
    else var (a, rest) := Alloc(rs[1..], n); (a, [rs[0]] + rest)
  }

  /** The block handed out was free, is no longer free, and nothing else changed. */
  lemma {:induction false} AllocTakes(rs: seq<Run>, n: int)
    requires Canonical(rs) && n > 0
    ensures var (a, rest) := Alloc(rs, n);
            && Canonical(rest)
            && (|rest| > 0 ==> |rs| > 0 && rest[0].addr >= rs[0].addr)
            && match a
               case Failed => rest == rs
               case At(p) =>
                 && Apart(rest, p, n)
                 && (forall b :: Covers(rs, b) <==> Covers(rest, b) || p <= b < p + n)
  {
    if |rs| == 0 {
    } else if rs[0].len == n {
      forall b | Covers(rs[1..], b) ensures b >= End(rs[0]) { CoversAbove(rs[1..], b); }
    } else if rs[0].len > n {
      var rest := [Run(rs[0].addr, rs[0].len - n)] + rs[1..];
      assert rest[1..] == rs[1..];
      forall b | Covers(rs[1..], b) ensures b >= End(rs[0]) { CoversAbove(rs[1..], b); }
      forall b ensures Covers(rs, b) <==> Covers(rest, b) || End(rs[0]) - n <= b < End(rs[0]) {
        assert Covers(rest, b) <==> rs[0].addr <= b < End(rs[0]) - n || Covers(rs[1..], b);
      }
    } else {
      AllocTakes(rs[1..], n);
      var (a, rest) := Alloc(rs[1..], n);
      assert ([rs[0]] + rest)[1..] == rest;
      assert [rs[0]] + rs[1..] == rs;
      if a.At? {
        assert Covers(rs[1..], a.addr);
        CoversAbove(rs[1..], a.addr);
        forall b ensures Covers(rs, b) <==> Covers([rs[0]] + rest, b) || a.addr <= b < a.addr + n {
          assert Covers([rs[0]] + rest, b) <==> rs[0].addr <= b < End(rs[0]) || Covers(rest, b);
        }
      }
    }
  }

  /** `kalloc` fails exactly when no single run is long enough. */
  lemma {:induction false} AllocFails(rs: seq<Run>, n: int)
    ensures Alloc(rs, n).0 == Failed <==> forall i :: 0 <= i < |rs| ==> rs[i].len < n
  {
    if |rs| > 0 {
      AllocFails(rs[1..], n);
      assert forall i :: 1 <= i < |rs| ==> rs[i] == rs[1..][i - 1];
      if rs[0].len < n && Alloc(rs[1..], n).0 == Failed {
        forall i | 0 <= i < |rs| ensures rs[i].len < n { if i > 0 { assert rs[1..][i - 1].len < n; } }
      }
    }
  }

  /** Freeing what was just allocated restores the very list. */
  lemma FreeUndoesAlloc(rs: seq<Run>, n: int)
    requires Canonical(rs) && n > 0
    ensures var (a, rest) := Alloc(rs, n); a.At? ==> Free(rest, a.addr, n) == rs
  {
    AllocTakes(rs, n);
    var (a, rest) := Alloc(rs, n);
    if a.At? {
      FreeAdds(rest, a.addr, n);
      Unique(Free(rest, a.addr, n), rs);
    }
  }

  /** A block that is freed and asked for again is handed out again, where it was. */
  lemma SameBlockAgain(rs: seq<Run>, n: int)
    requires Canonical(rs) && n > 0
    ensures var (a, rest) := Alloc(rs, n); a.At? ==> Alloc(Free(rest, a.addr, n), n) == (a, rest)
  {
    FreeUndoesAlloc(rs, n);
  }

  /** The block comes from the first run that is long enough: all of it, or its last n bytes. */
  lemma {:induction false} FirstFit(rs: seq<Run>, n: int, i: nat)
    requires i < |rs| && rs[i].len >= n && forall k :: 0 <= k < i ==> rs[k].len < n
    ensures Alloc(rs, n).0 == At(End(rs[i]) - n)
    ensures Alloc(rs, n).1 ==
              rs[..i] + (if rs[i].len == n then [] else [Run(rs[i].addr, rs[i].len - n)]) + rs[i + 1..]
  {
    if i > 0 {
      FirstFit(rs[1..], n, i - 1);
      assert rs[..i] == [rs[0]] + rs[1..][..i - 1];
    }
  }
}
