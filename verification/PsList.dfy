/** The intrusive circular doubly linked list of ps_list.h.

    A link is embedded in the object it links; `id` names that object, so that `ps_container` is a lookup
    by id.  A list head is a link whose id names no object.
  */
module PsList {

  class Link {
    const id: nat
    var n: Link
    var p: Link

    /** `ps_list_ll_init`. */
    constructor (id: nat)
      ensures this.id == id && n == this && p == this
    {
      this.id := id;
      n := this;
      p := this;
    }
  }

  /** The links of s, in order, form one circular list. */
  ghost predicate Ring(s: seq<Link>)
    reads s
  {
    && |s| > 0
    && (forall i, j :: 0 <= i < j < |s| ==> s[i] != s[j])
    && (forall i {:trigger s[i].n} :: 0 <= i < |s| - 1 ==> s[i].n == s[i + 1])
    && (forall i {:trigger s[i].p} :: 1 <= i < |s| ==> s[i].p == s[i - 1])
    && s[|s| - 1].n == s[0]
    && s[0].p == s[|s| - 1]
  }

  ghost function Inserted(s: seq<Link>, i: nat, l: Link): seq<Link>
    requires i < |s|
  {
    s[..i + 1] + [l] + s[i + 1..]
  }

  ghost function Removed(s: seq<Link>, i: nat): seq<Link>
    requires i < |s|
  {
    s[..i] + s[i + 1..]
  }

  /** A circular list may be read from any of its links on. */
  lemma Rotated(s: seq<Link>, k: nat)
    requires Ring(s) && k <= |s|
    ensures Ring(s[k..] + s[..k])
  {
    if 0 < k < |s| {
      var r := s[k..] + s[..k];
      forall i {:trigger r[i].n} | 0 <= i < |r| - 1 ensures r[i].n == r[i + 1] {
        if i < |s| - k { assert r[i] == s[k + i]; } else { assert r[i] == s[i - (|s| - k)]; }
      }
      forall i {:trigger r[i].p} | 1 <= i < |r| ensures r[i].p == r[i - 1] {
        if i < |s| - k { assert r[i] == s[k + i]; } else { assert r[i] == s[i - (|s| - k)]; }
      }
    } else {
      assert s[k..] + s[..k] == s;
    }
  }

  lemma Neighbours(s: seq<Link>, i: nat)
    requires Ring(s) && i < |s|
    ensures s[i].n in s && s[i].p in s
  {
    assert s[i].n == s[if i + 1 < |s| then i + 1 else 0];
    assert s[i].p == s[if i > 0 then i - 1 else |s| - 1];
  }

  /** A list none of whose links has changed. */
  twostate lemma Kept(s: seq<Link>)
    requires old(Ring(s)) && forall l :: l in s ==> l.n == old(l.n) && l.p == old(l.p)
    ensures Ring(s)
  {
  }

  /** `ps_list_ll_empty`: the list of l holds l alone. */
  method Empty(l: Link, ghost s: seq<Link>) returns (empty: bool)
    requires Ring(s) && s[0] == l
    ensures empty <==> |s| == 1
  {
    empty := l.n == l;
  }

  /** `ps_list_ll_add`: nw goes in just after l. */
  method Add(l: Link, nw: Link, ghost s: seq<Link>, ghost i: nat)
    requires Ring(s) && i < |s| && s[i] == l && nw !in s
    modifies nw`n, nw`p, l`n, l.n`p
    ensures Ring(Inserted(s, i, nw))
  {
    nw.n := l.n;
    nw.p := l;
    l.n := nw;
    nw.n.p := nw;
    ghost var r := Inserted(s, i, nw);
    assert forall j :: 0 <= j < |r| ==> r[j] == if j <= i then s[j] else if j == i + 1 then nw else s[j - 1];
  }

  /** `ps_list_ll_rem`: l leaves its list and becomes a list of its own; nothing else is in the way even
      when l was alone. */
  method Rem(l: Link, ghost s: seq<Link>, ghost i: nat)
    requires Ring(s) && i < |s| && s[i] == l
    modifies l`n, l`p, l.n`p, l.p`n
    ensures Ring([l])
    ensures |s| > 1 ==> Ring(Removed(s, i))
  {
    l.n.p := l.p;
    l.p.n := l.n;
    l.p := l;
    l.n := l;
    ghost var r := Removed(s, i);
    assert forall j :: 0 <= j < |r| ==> r[j] == if j < i then s[j] else s[j + 1];
    forall j {:trigger r[j].n} | 0 <= j < |r| - 1 ensures r[j].n == r[j + 1] {
      assert j >= i ==> s[j + 1].n == s[j + 2];
    }
    forall j {:trigger r[j].p} | 1 <= j < |r| ensures r[j].p == r[j - 1] {
      assert j > i ==> s[j + 1].p == s[j];
    }
  }
}
