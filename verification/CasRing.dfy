/** scheddev/rbuf.c: the ring buffer between two kernel threads, one writing and one reading.

    Every load, store and compare-and-swap is a step of its own, and the steps of the two threads
    interleave in any way.  C leaves the order of the two loads in `rbuf_isfull` and `rbuf_isempty` open,
    so either may come first.
  */
module CasRing {
  import opened Options
  import opened RingBuffer

  /** `seen` remembers, for the statement of the results only, how many values had been read (written)
      when the other side's index was loaded. */
  datatype WriterPc =
    | WriterIdle
    | WriterTest(v: nat, t: Option<nat>, h: Option<nat>, seen: nat)
    | WriterLoad(v: nat)
    | WriterStore(v: nat, i: nat)
    | WriterCas(v: nat, i: nat)

  datatype ReaderPc =
    | ReaderIdle
    | ReaderTest(h: Option<nat>, t: Option<nat>, seen: nat)
    | ReaderLoad
    | ReaderFetch(i: nat)
    | ReaderCas(i: nat, ret: nat)

  /** A call of `rbuf_write` that has returned: its value and its result. */
  datatype Call = Call(v: nat, result: WriteState)

  /** `written` and `taken` are the values whose compare-and-swap has succeeded, in order; `wlog` lists the
      calls of `rbuf_write` that have returned, `rlog` what the calls of `rbuf_read` have returned, None
      for NULL. */
  datatype Ring = Ring(buf: seq<nat>, head: nat, tail: nat, w: WriterPc, r: ReaderPc,
                       written: seq<nat>, taken: seq<nat>, wlog: seq<Call>, rlog: seq<Option<nat>>)

  datatype Step =
    | Write(v: nat) | WLoadTail | WLoadHead | WDecide | WLoad | WStore | WCas
    | Read | RLoadHead | RLoadTail | RDecide | RLoad | RFetch | RCas

  ghost predicate Shaped(s: Ring) {
    |s.buf| >= 2 && s.head < |s.buf| && s.tail < |s.buf|
  }

  ghost predicate Enabled(s: Ring, a: Step) {
    match a
    case Write(v) => s.w.WriterIdle?
    case WLoadTail => s.w.WriterTest? && s.w.t.None?
    case WLoadHead => s.w.WriterTest? && s.w.h.None?
    case WDecide => s.w.WriterTest? && s.w.t.Some? && s.w.h.Some? && s.w.t.value < |s.buf|
    case WLoad => s.w.WriterLoad?
    case WStore => s.w.WriterStore? && s.w.i < |s.buf|
    case WCas => s.w.WriterCas? && s.w.i < |s.buf|
    case Read => s.r.ReaderIdle?
    case RLoadHead => s.r.ReaderTest? && s.r.h.None?
    case RLoadTail => s.r.ReaderTest? && s.r.t.None?
    case RDecide => s.r.ReaderTest? && s.r.h.Some? && s.r.t.Some?
    case RLoad => s.r.ReaderLoad?
    case RFetch => s.r.ReaderFetch? && s.r.i < |s.buf|
    case RCas => s.r.ReaderCas? && s.r.i < |s.buf|
  }

  /** The decision of `rbuf_isfull` on the loaded indices, and of `rbuf_isempty`. */
  ghost predicate SaysFull(s: Ring)
    requires Enabled(s, WDecide)
  {
    After(s.w.t.value, |s.buf|) == s.w.h.value
  }

  ghost predicate SaysEmpty(s: Ring)
    requires Enabled(s, RDecide)
  {
    s.r.h.value == s.r.t.value
  }

  ghost function Next(s: Ring, a: Step): Ring
    requires Shaped(s) && Enabled(s, a)
  {
    match a
    case Write(v) =>
      if v == 0 then s.(wlog := s.wlog + [Call(v, Error)]) else s.(w := WriterTest(v, None, None, 0))
    case WLoadTail => s.(w := s.w.(t := Some(s.tail)))
    case WLoadHead => s.(w := s.w.(h := Some(s.head), seen := |s.taken|))
    case WDecide =>
      if SaysFull(s) then s.(w := WriterIdle, wlog := s.wlog + [Call(s.w.v, Full)])
      else s.(w := WriterLoad(s.w.v))
    case WLoad => s.(w := WriterStore(s.w.v, s.tail))
    case WStore => s.(buf := s.buf[s.w.i := s.w.v], w := WriterCas(s.w.v, s.w.i))
    case WCas =>
      if s.tail == s.w.i then
        s.(tail := After(s.w.i, |s.buf|), w := WriterIdle, written := s.written + [s.w.v],
           wlog := s.wlog + [Call(s.w.v, Ok)])
      else s.(w := WriterTest(s.w.v, None, None, 0))
    case Read => s.(r := ReaderTest(None, None, 0))
    case RLoadHead => s.(r := s.r.(h := Some(s.head)))
    case RLoadTail => s.(r := s.r.(t := Some(s.tail), seen := |s.written|))
    case RDecide =>
      if SaysEmpty(s) then s.(r := ReaderIdle, rlog := s.rlog + [None]) else s.(r := ReaderLoad)
    case RLoad => s.(r := ReaderFetch(s.head))
    case RFetch => s.(r := ReaderCas(s.r.i, s.buf[s.r.i]))
    case RCas =>
      if s.head == s.r.i then
        s.(head := After(s.r.i, |s.buf|), r := ReaderIdle, taken := s.taken + [s.r.ret],
           rlog := s.rlog + [Some(s.r.ret)])
      else s.(r := ReaderLoad)
  }

  /** How many values lie from index i up to index j. */
  ghost function Distance(i: nat, j: nat, cells: nat): int {
    if i <= j then j - i else cells - i + j
  }

  ghost predicate WriterInv(s: Ring)
    requires Shaped(s)
  {
    var n := |s.buf|;
    var room := Distance(s.head, s.tail, n) < n - 1;
    match s.w
    case WriterIdle => true
    case WriterTest(v, t, h, seen) =>
      && (t.Some? ==> t.value == s.tail)
      && (h.Some? ==> h.value < n && seen <= |s.taken| && Distance(h.value, s.tail, n) == |s.written| - seen)
    case WriterLoad(v) => room
    case WriterStore(v, i) => room && i == s.tail
    case WriterCas(v, i) => room && i == s.tail && s.buf[i] == v
  }

  ghost predicate ReaderInv(s: Ring)
    requires Shaped(s)
  {
    match s.r
    case ReaderIdle => true
    case ReaderTest(h, t, seen) =>
      && (h.Some? ==> h.value == s.head)
      && (t.Some? ==>
            t.value < |s.buf| && seen <= |s.written| && Distance(s.head, t.value, |s.buf|) == seen - |s.taken|)
    case ReaderLoad => s.head != s.tail
    case ReaderFetch(i) => s.head != s.tail && i == s.head
    case ReaderCas(i, ret) => s.head != s.tail && i == s.head && ret == s.buf[i]
  }

  /** What has been written is what has been read, followed by what is in the ring. */
  ghost predicate Inv(s: Ring) {
    && Shaped(s)
    && s.written == s.taken + Between(s.buf, s.head, s.tail)
    && WriterInv(s) && ReaderInv(s)
  }

  /** Storing at tail when there is room leaves every unread slot alone. */
  lemma StoreBetween(buf: seq<nat>, head: nat, tail: nat, v: nat)
    requires head < |buf| && tail < |buf|
    ensures Between(buf[tail := v], head, tail) == Between(buf, head, tail)
  {
  }

  lemma StoreInv(s: Ring)
    requires Inv(s) && Enabled(s, WStore)
    ensures Inv(Next(s, WStore))
    ensures Between(Next(s, WStore).buf, s.head, s.tail) == Between(s.buf, s.head, s.tail)
  {
    StoreBetween(s.buf, s.head, s.tail, s.w.v);
  }

  lemma WriterCasInv(s: Ring)
    requires Inv(s) && Enabled(s, WCas)
    ensures s.tail == s.w.i && Inv(Next(s, WCas))
  {
    var s' := Next(s, WCas);
    AppendAt(s.buf, s.head, s.tail, s.w.v);
    assert s.buf[s.tail := s.w.v] == s.buf;
    assert s'.written == s.taken + (Between(s.buf, s.head, s.tail) + [s.w.v]);
  }

  lemma ReaderCasInv(s: Ring)
    requires Inv(s) && Enabled(s, RCas)
    ensures s.head == s.r.i && Inv(Next(s, RCas))
  {
    var s' := Next(s, RCas);
    RemoveAt(s.buf, s.head, s.tail);
    assert s'.taken + Between(s.buf, s'.head, s'.tail) == s.taken + ([s.r.ret] + Between(s.buf, s'.head, s'.tail));
  }

  lemma WriterLooks(s: Ring, a: Step)
    requires Inv(s) && Enabled(s, a) && (a.Write? || a.WLoadTail? || a.WLoadHead? || a.WDecide? || a.WLoad?)
    ensures Inv(Next(s, a))
  {
  }

  lemma ReaderLooks(s: Ring, a: Step)
    requires Inv(s) && Enabled(s, a) && (a.Read? || a.RLoadHead? || a.RLoadTail? || a.RDecide? || a.RLoad? || a.RFetch?)
    ensures Inv(Next(s, a))
  {
  }

  /** Every step of either thread keeps the invariant. */
  lemma StepInv(s: Ring, a: Step)
    requires Inv(s) && Enabled(s, a)
    ensures Inv(Next(s, a))
  {
    hide Inv, Next, Enabled;
    if a.WStore? {
      StoreInv(s);
    } else if a.WCas? {
      WriterCasInv(s);
    } else if a.RCas? {
      ReaderCasInv(s);
    } else if a.Write? || a.WLoadTail? || a.WLoadHead? || a.WDecide? || a.WLoad? {
      WriterLooks(s, a);
    } else {
      ReaderLooks(s, a);
    }
  }

  /** A thread inside a call can always take its next step. */
  lemma NeverStuck(s: Ring)
    requires Inv(s)
    ensures !s.w.WriterIdle? ==>
              exists a :: a in {WLoadTail, WLoadHead, WDecide, WLoad, WStore, WCas} && Enabled(s, a)
    ensures !s.r.ReaderIdle? ==>
              exists a :: a in {RLoadHead, RLoadTail, RDecide, RLoad, RFetch, RCas} && Enabled(s, a)
  {
    var w := match s.w
      case WriterIdle => WLoad
      case WriterTest(_, t, h, _) => if t.None? then WLoadTail else if h.None? then WLoadHead else WDecide
      case WriterLoad(_) => WLoad
      case WriterStore(_, _) => WStore
      case WriterCas(_, _) => WCas;
    assert !s.w.WriterIdle? ==> Enabled(s, w);
    var r := match s.r
      case ReaderIdle => RLoad
      case ReaderTest(h, t, _) => if h.None? then RLoadHead else if t.None? then RLoadTail else RDecide
      case ReaderLoad => RLoad
      case ReaderFetch(_) => RFetch
      case ReaderCas(_, _) => RCas;
    assert !s.r.ReaderIdle? ==> Enabled(s, r);
  }

  /** With one writer and one reader no compare-and-swap ever fails, so neither loop repeats. */
  lemma NoRetry(s: Ring, a: Step)
    requires Inv(s) && Enabled(s, a)
    ensures a.WCas? ==> Next(s, a).w == WriterIdle && Next(s, a).written == s.written + [s.w.v]
    ensures a.RCas? ==> Next(s, a).r == ReaderIdle && s.written[|s.taken|] == s.r.ret
                        && Next(s, a).taken == s.taken + [s.r.ret]
  {
    if a.RCas? { RemoveAt(s.buf, s.head, s.tail); }
  }

  /** `rbuf_write` reports full only if the ring was full when it loaded the head, and `rbuf_read` returns
      NULL only if the ring was empty when it loaded the tail. */
  lemma ResultsAreTrue(s: Ring, a: Step)
    requires Inv(s) && Enabled(s, a)
    ensures a.WDecide? ==> (SaysFull(s) <==> |s.written| - s.w.seen == |s.buf| - 1)
    ensures a.RDecide? ==> (SaysEmpty(s) <==> s.r.seen == |s.taken|)
  {
  }

  // ----- runs -----

  ghost predicate Run(s: Ring, steps: seq<Step>)
    decreases |steps|
  {
    Shaped(s) && (|steps| > 0 ==> Enabled(s, steps[0]) && Run(Next(s, steps[0]), steps[1..]))
  }

  ghost function Exec(s: Ring, steps: seq<Step>): Ring
    requires Run(s, steps)
    decreases |steps|
  {
    if |steps| == 0 then s else Exec(Next(s, steps[0]), steps[1..])
  }

  ghost function Init(cells: nat): Ring {
    Ring(seq(cells, _ => 0), 0, 0, WriterIdle, ReaderIdle, [], [], [], [])
  }

  lemma {:induction false} RunInv(s: Ring, steps: seq<Step>)
    requires Inv(s) && Run(s, steps)
    ensures Inv(Exec(s, steps)) && |Exec(s, steps).buf| == |s.buf|
    decreases |steps|
  {
    if |steps| > 0 {
      StepInv(s, steps[0]);
      RunInv(Next(s, steps[0]), steps[1..]);
    }
  }

  /** Under every interleaving the values read are a prefix of the values written, what is missing is
      exactly what lies in the ring, and the ring never holds more than its capacity. */
  lemma ReadsArePrefix(cells: nat, steps: seq<Step>)
    requires cells >= 2 && Run(Init(cells), steps)
    ensures var s := Exec(Init(cells), steps);
            && s.taken <= s.written
            && Shaped(s) && s.written[|s.taken|..] == Between(s.buf, s.head, s.tail)
            && |s.written| - |s.taken| <= cells - 1
  {
    RunInv(Init(cells), steps);
  }
}
