/** What the calls of scheddev/rbuf.c return, under every interleaving of the writer and the reader. */
module CasCalls {
  import opened Options
  import opened RingBuffer
  import opened CasRing

  // ----- every call returns once, and what it returns is what happened -----

  /** The values of the calls that have returned OK, in order. */
  ghost function Accepted(log: seq<Call>): seq<nat> {
    if |log| == 0 then []
    else Accepted(log[..|log| - 1]) + if log[|log| - 1].result == Ok then [log[|log| - 1].v] else []
  }

  ghost function Values(log: seq<Call>): seq<nat> {
    seq(|log|, i requires 0 <= i < |log| => log[i].v)
  }

  /** The values that have been read, in order. */
  ghost function Got(log: seq<Option<nat>>): seq<nat> {
    if |log| == 0 then []
    else Got(log[..|log| - 1]) + if log[|log| - 1].Some? then [log[|log| - 1].value] else []
  }

  /** The value of the call that the writer is in. */
  ghost function Pending(w: WriterPc): seq<nat> {
    match w
    case WriterIdle => []
    case WriterTest(v, _, _, _) => [v]
    case WriterLoad(v) => [v]
    case WriterStore(v, _) => [v]
    case WriterCas(v, _) => [v]
  }

  /** The values that `rbuf_write` is called with in a run. */
  ghost function WriteCalls(steps: seq<Step>): seq<nat> {
    if |steps| == 0 then [] else (if steps[0].Write? then [steps[0].v] else []) + WriteCalls(steps[1..])
  }

  ghost function ReadCalls(steps: seq<Step>): nat {
    if |steps| == 0 then 0 else (if steps[0].Read? then 1 else 0) + ReadCalls(steps[1..])
  }

  ghost function Reading(r: ReaderPc): nat {
    if r.ReaderIdle? then 0 else 1
  }

  ghost predicate HonestWriter(s: Ring) {
    && s.written == Accepted(s.wlog)
    && (forall c :: c in s.wlog ==> (c.result == Error <==> c.v == 0))
    && (forall v :: v in Pending(s.w) ==> v != 0)
  }

  ghost predicate Honest(s: Ring) {
    HonestWriter(s) && s.taken == Got(s.rlog)
  }

  lemma AcceptedAppend(log: seq<Call>, c: Call)
    ensures Accepted(log + [c]) == Accepted(log) + if c.result == Ok then [c.v] else []
    ensures Values(log + [c]) == Values(log) + [c.v]
  {
    assert (log + [c])[..|log|] == log;
  }

  lemma GotAppend(log: seq<Option<nat>>, c: Option<nat>)
    ensures Got(log + [c]) == Got(log) + if c.Some? then [c.value] else []
  {
    assert (log + [c])[..|log|] == log;
  }

  /** What a step can mean for the writer: nothing but that a call starts or goes on, the end of a call, or
      a call with NULL. */
  ghost predicate WriterMove(s: Ring, a: Step, s': Ring) {
    || (&& s'.written == s.written && s'.wlog == s.wlog
        && if a.Write? then a.v != 0 && Pending(s.w) == [] && Pending(s'.w) == [a.v] else Pending(s'.w) == Pending(s.w))
    || (exists c :: WriteDone(s, a, s', c))
    || (a == Write(0) && s'.wlog == s.wlog + [Call(0, Error)] && s'.w == s.w == WriterIdle && s'.written == s.written)
  }

  ghost predicate WriteDone(s: Ring, a: Step, s': Ring, c: Call) {
    && !a.Write? && Pending(s.w) == [c.v] && Pending(s'.w) == []
    && c.result != Error && s'.wlog == s.wlog + [c]
    && s'.written == s.written + if c.result == Ok then [c.v] else []
  }

  ghost predicate ReaderMove(s: Ring, a: Step, s': Ring) {
    || (&& s'.taken == s.taken && s'.rlog == s.rlog
        && if a.Read? then Reading(s.r) == 0 && Reading(s'.r) == 1 else Reading(s'.r) == Reading(s.r))
    || (exists c :: ReadDone(s, a, s', c))
  }

  ghost predicate ReadDone(s: Ring, a: Step, s': Ring, c: Option<nat>) {
    && !a.Read? && Reading(s.r) == 1 && Reading(s'.r) == 0
    && s'.rlog == s.rlog + [c] && s'.taken == s.taken + if c.Some? then [c.value] else []
  }

  lemma LogStep(s: Ring, a: Step)
    requires Inv(s) && Enabled(s, a)
    ensures WriterMove(s, a, Next(s, a)) && ReaderMove(s, a, Next(s, a))
  {
    NoRetry(s, a);
    hide Inv, Between;
    var s' := Next(s, a);
    if a.WDecide? && s'.w.WriterIdle? { assert WriteDone(s, a, s', Call(s.w.v, Full)); }
    if a.WCas? { assert WriteDone(s, a, s', Call(s.w.v, Ok)); }
    if a.RDecide? && s'.r.ReaderIdle? { assert ReadDone(s, a, s', None); }
    if a.RCas? { assert ReadDone(s, a, s', Some(s.r.ret)); }
  }

  lemma WriterStaysHonest(s: Ring, a: Step, s': Ring)
    requires HonestWriter(s) && WriterMove(s, a, s')
    ensures HonestWriter(s')
    ensures Values(s'.wlog) + Pending(s'.w) == Values(s.wlog) + Pending(s.w) + if a.Write? then [a.v] else []
  {
    hide Values, Accepted;
    if c :| WriteDone(s, a, s', c) {
      AcceptedAppend(s.wlog, c);
      assert c.v in Pending(s.w);
    } else if s'.wlog != s.wlog {
      AcceptedAppend(s.wlog, Call(0, Error));
    } else {
      hide Pending;
      assert a.Write? ==> Values(s.wlog) + [] + [a.v] == Values(s.wlog) + [a.v];
    }
  }

  lemma HonestStep(s: Ring, a: Step)
    requires Inv(s) && Enabled(s, a) && Honest(s)
    ensures var s' := Next(s, a);
            && Honest(s')
            && Values(s'.wlog) + Pending(s'.w) == Values(s.wlog) + Pending(s.w) + (if a.Write? then [a.v] else [])
            && |s'.rlog| + Reading(s'.r) == |s.rlog| + Reading(s.r) + (if a.Read? then 1 else 0)
  {
    LogStep(s, a);
    hide Inv, Next, Enabled, Values, Accepted, Got, Pending, Reading, WriterMove, HonestWriter;
    var s' := Next(s, a);
    WriterStaysHonest(s, a, s');
    if c :| ReadDone(s, a, s', c) { GotAppend(s.rlog, c); }
  }

  lemma {:induction false} HonestRun(s: Ring, steps: seq<Step>)
    requires Inv(s) && Run(s, steps) && Honest(s)
    ensures var s' := Exec(s, steps);
            && Honest(s')
            && Values(s'.wlog) + Pending(s'.w) == Values(s.wlog) + Pending(s.w) + WriteCalls(steps)
            && |s'.rlog| + Reading(s'.r) == |s.rlog| + Reading(s.r) + ReadCalls(steps)
    decreases |steps|
  {
    hide Inv, Next, Enabled, Honest, Values, Pending;
    if |steps| > 0 {
      StepInv(s, steps[0]);
      HonestStep(s, steps[0]);
      HonestRun(Next(s, steps[0]), steps[1..]);
    }
  }

  /** In any run from the start the calls of `rbuf_write` return in order, each once, but for the one under
      way; those that return OK have put exactly their values into the ring, in order, and the others
      nothing; only NULL is an error.  What the calls of `rbuf_read` return is what was taken out. */
  lemma ResultsTell(cells: nat, steps: seq<Step>)
    requires cells >= 2 && Run(Init(cells), steps)
    ensures var s := Exec(Init(cells), steps);
            && Values(s.wlog) + Pending(s.w) == WriteCalls(steps)
            && s.written == Accepted(s.wlog) && s.taken == Got(s.rlog)
            && |s.rlog| + Reading(s.r) == ReadCalls(steps)
            && forall c :: c in s.wlog ==> (c.result == Error <==> c.v == 0)
  {
    HonestRun(Init(cells), steps);
  }

  // ----- full and empty -----

  ghost predicate IsFull(s: Ring)
    requires Shaped(s)
  {
    |Between(s.buf, s.head, s.tail)| == |s.buf| - 1
  }

  ghost predicate IsEmpty(s: Ring)
    requires Shaped(s)
  {
    Between(s.buf, s.head, s.tail) == []
  }

  /** The ring is full, or empty, in some state of the run. */
  ghost predicate WasFull(s: Ring, steps: seq<Step>)
    requires Run(s, steps)
    decreases |steps|
  {
    IsFull(s) || (|steps| > 0 && WasFull(Next(s, steps[0]), steps[1..]))
  }

  ghost predicate WasEmpty(s: Ring, steps: seq<Step>)
    requires Run(s, steps)
    decreases |steps|
  {
    IsEmpty(s) || (|steps| > 0 && WasEmpty(Next(s, steps[0]), steps[1..]))
  }

  ghost predicate NoneIs(steps: seq<Step>, read: bool) {
    forall i :: 0 <= i < |steps| ==> if read then !steps[i].Read? else !steps[i].Write?
  }

  lemma NoneIsRest(steps: seq<Step>, read: bool)
    requires NoneIs(steps, read) && |steps| > 0
    ensures NoneIs(steps[1..], read) && if read then !steps[0].Read? else !steps[0].Write?
  {
  }

  /** Between two calls the writer changes nothing. */
  lemma {:induction false} WriterRests(s: Ring, steps: seq<Step>)
    requires Inv(s) && Run(s, steps) && NoneIs(steps, false) && s.w.WriterIdle?
    ensures var s' := Exec(s, steps); s'.w.WriterIdle? && s'.wlog == s.wlog && s'.written == s.written
    decreases |steps|
  {
    if |steps| > 0 {
      NoneIsRest(steps, false);
      StepInv(s, steps[0]);
      WriterRests(Next(s, steps[0]), steps[1..]);
    }
  }

  lemma {:induction false} ReaderRests(s: Ring, steps: seq<Step>)
    requires Inv(s) && Run(s, steps) && NoneIs(steps, true) && s.r.ReaderIdle?
    ensures var s' := Exec(s, steps); s'.r.ReaderIdle? && s'.rlog == s.rlog && s'.taken == s.taken
    decreases |steps|
  {
    if |steps| > 0 {
      NoneIsRest(steps, true);
      StepInv(s, steps[0]);
      ReaderRests(Next(s, steps[0]), steps[1..]);
    }
  }

  /** When the writer loaded the head, the ring was full. */
  ghost predicate SawFull(s: Ring) {
    s.w.WriterTest? && s.w.h.Some? && |s.written| - s.w.seen == |s.buf| - 1
  }

  ghost predicate SawEmpty(s: Ring) {
    s.r.ReaderTest? && s.r.t.Some? && s.r.seen == |s.taken|
  }

  /** What a step means for a call of `rbuf_write` that is under way. */
  lemma WriteStep(s: Ring, a: Step)
    requires Inv(s) && Enabled(s, a) && !s.w.WriterIdle?
    ensures var s', v := Next(s, a), Pending(s.w)[0];
            if s'.w.WriterIdle? then
              || (s'.wlog == s.wlog + [Call(v, Ok)] && s'.written == s.written + [v])
              || (s'.wlog == s.wlog + [Call(v, Full)] && s'.written == s.written && SawFull(s))
            else
              && Pending(s'.w) == Pending(s.w) && s'.wlog == s.wlog && s'.written == s.written
              && (SawFull(s') ==> SawFull(s) || IsFull(s))
  {
    NoRetry(s, a);
    ResultsAreTrue(s, a);
    hide Between;
    assert |s.written| == |s.taken| + |Between(s.buf, s.head, s.tail)|;
  }

  lemma {:induction false} WriteEnds(s: Ring, steps: seq<Step>)
    requires Inv(s) && Run(s, steps) && NoneIs(steps, false)
    requires !s.w.WriterIdle? && Exec(s, steps).w.WriterIdle?
    ensures var s', v := Exec(s, steps), Pending(s.w)[0];
            || (s'.wlog == s.wlog + [Call(v, Ok)] && s'.written == s.written + [v])
            || (s'.wlog == s.wlog + [Call(v, Full)] && s'.written == s.written && (WasFull(s, steps) || SawFull(s)))
    decreases |steps|
  {
    var s' := Next(s, steps[0]);
    NoneIsRest(steps, false);
    WriteStep(s, steps[0]);
    StepInv(s, steps[0]);
    hide Inv, Next, Enabled, SawFull, IsFull, Pending;
    if s'.w.WriterIdle? { WriterRests(s', steps[1..]); } else { WriteEnds(s', steps[1..]); }
  }

  /** Under any interleaving a call of `rbuf_write` with a value that is not NULL returns OK, and exactly
      that value has been put into the ring, or FULL, and nothing has, and the ring was full at some time
      during the call. */
  lemma WriteReturns(s: Ring, v: nat, steps: seq<Step>)
    requires Inv(s) && s.w.WriterIdle? && v != 0 && Run(Next(s, Write(v)), steps) && NoneIs(steps, false)
    requires Exec(Next(s, Write(v)), steps).w.WriterIdle?
    ensures var s' := Exec(Next(s, Write(v)), steps);
            || (s'.wlog == s.wlog + [Call(v, Ok)] && s'.written == s.written + [v])
            || (s'.wlog == s.wlog + [Call(v, Full)] && s'.written == s.written && WasFull(Next(s, Write(v)), steps))
  {
    StepInv(s, Write(v));
    WriteEnds(Next(s, Write(v)), steps);
  }

  lemma ReadStep(s: Ring, a: Step)
    requires Inv(s) && Enabled(s, a) && !s.r.ReaderIdle?
    ensures var s' := Next(s, a);
            if s'.r.ReaderIdle? then
              || (exists x :: s'.rlog == s.rlog + [Some(x)] && s'.taken == s.taken + [x])
              || (s'.rlog == s.rlog + [None] && s'.taken == s.taken && SawEmpty(s))
            else
              && s'.rlog == s.rlog && s'.taken == s.taken
              && (SawEmpty(s') ==> SawEmpty(s) || IsEmpty(s))
  {
    NoRetry(s, a);
    ResultsAreTrue(s, a);
    hide Between;
    assert |s.written| == |s.taken| + |Between(s.buf, s.head, s.tail)|;
    if a.RCas? { assert Next(s, a).rlog == s.rlog + [Some(s.r.ret)]; }
  }

  lemma {:induction false} ReadEnds(s: Ring, steps: seq<Step>)
    requires Inv(s) && Run(s, steps) && NoneIs(steps, true)
    requires !s.r.ReaderIdle? && Exec(s, steps).r.ReaderIdle?
    ensures var s' := Exec(s, steps);
            || (exists x :: s'.rlog == s.rlog + [Some(x)] && s'.taken == s.taken + [x])
            || (s'.rlog == s.rlog + [None] && s'.taken == s.taken && (WasEmpty(s, steps) || SawEmpty(s)))
    decreases |steps|
  {
    var s' := Next(s, steps[0]);
    NoneIsRest(steps, true);
    ReadStep(s, steps[0]);
    StepInv(s, steps[0]);
    hide Inv, Next, Enabled, SawEmpty, IsEmpty;
    if s'.r.ReaderIdle? { ReaderRests(s', steps[1..]); } else { ReadEnds(s', steps[1..]); }
  }

  /** A call of `rbuf_read` returns the value that it has taken out, the oldest one, or NULL, and has taken
      none, and the ring was empty at some time during the call. */
  lemma ReadReturns(s: Ring, steps: seq<Step>)
    requires Inv(s) && s.r.ReaderIdle? && Run(Next(s, Read), steps) && NoneIs(steps, true)
    requires Exec(Next(s, Read), steps).r.ReaderIdle?
    ensures var s' := Exec(Next(s, Read), steps);
            || (exists x :: s'.rlog == s.rlog + [Some(x)] && s'.taken == s.taken + [x] && s'.taken <= s'.written)
            || (s'.rlog == s.rlog + [None] && s'.taken == s.taken && WasEmpty(Next(s, Read), steps))
  {
    StepInv(s, Read);
    ReadEnds(Next(s, Read), steps);
    RunInv(Next(s, Read), steps);
  }

  // ----- calls that nobody disturbs -----

  lemma RunOne(s: Ring, a: Step, s1: Ring, rest: seq<Step>, s': Ring)
    requires Inv(s) && Enabled(s, a) && Next(s, a) == s1 && Run(s1, rest) && Exec(s1, rest) == s'
    ensures Run(s, [a] + rest) && Exec(s, [a] + rest) == s'
  {
    hide Next, Enabled;
    assert ([a] + rest)[1..] == rest;
  }

  /** The first four steps of a write, whatever follows. */
  lemma WriteTests(s: Ring, v: nat, rest: seq<Step>, s': Ring)
    requires Inv(s) && s.w.WriterIdle? && v != 0
    requires var s4 := if IsFull(s) then s.(wlog := s.wlog + [Call(v, Full)]) else s.(w := WriterLoad(v));
             Run(s4, rest) && Exec(s4, rest) == s'
    ensures var steps := [Write(v), WLoadTail, WLoadHead, WDecide] + rest; Run(s, steps) && Exec(s, steps) == s'
  {
    assert |s.written| == |s.taken| + |Between(s.buf, s.head, s.tail)|;
    StepInv(s, Write(v));
    var s1 := Next(s, Write(v));
    StepInv(s1, WLoadTail);
    var s2 := Next(s1, WLoadTail);
    StepInv(s2, WLoadHead);
    var s3 := Next(s2, WLoadHead);
    ResultsAreTrue(s3, WDecide);
    hide Inv, Run, Exec, Between;
    StepInv(s3, WDecide);
    FourSteps(s, Write(v), s1, WLoadTail, s2, WLoadHead, s3, WDecide, Next(s3, WDecide), rest, s');
  }

  lemma WriteLoads(s: Ring)
    requires Inv(s) && s.w.WriterLoad?
    ensures var steps := [WLoad, WStore, WCas];
            && Run(s, steps)
            && var s' := Exec(s, steps);
               s'.w.WriterIdle? && s'.wlog == s.wlog + [Call(s.w.v, Ok)] && s'.written == s.written + [s.w.v]
  {
    StepInv(s, WLoad);
    var s1 := Next(s, WLoad);
    StepInv(s1, WStore);
    var s2 := Next(s1, WStore);
    StepInv(s2, WCas);
    NoRetry(s2, WCas);
    var s3 := Next(s2, WCas);
    Idle(s3);
    hide Inv, Run, Exec, Between;
    RunOne(s2, WCas, s3, [], s3);
    RunOne(s1, WStore, s2, [WCas] + [], s3);
    RunOne(s, WLoad, s1, [WStore] + ([WCas] + []), s3);
    assert [WLoad] + ([WStore] + ([WCas] + [])) == [WLoad, WStore, WCas];
  }

  lemma RoomInv(s: Ring, v: nat)
    requires Inv(s) && s.w.WriterIdle? && !IsFull(s)
    ensures Inv(s.(w := WriterLoad(v)))
  {
  }

  /** With room in the ring a write that nobody disturbs succeeds, without it it fails. */
  lemma WriteAlone(s: Ring, v: nat)
    requires Inv(s) && s.w.WriterIdle? && v != 0
    ensures IsFull(s) ==>
              var steps := [Write(v), WLoadTail, WLoadHead, WDecide];
              Run(s, steps) && Exec(s, steps) == s.(wlog := s.wlog + [Call(v, Full)])
    ensures !IsFull(s) ==>
              var steps := [Write(v), WLoadTail, WLoadHead, WDecide, WLoad, WStore, WCas];
              && Run(s, steps)
              && var s' := Exec(s, steps);
                 s'.w.WriterIdle? && s'.wlog == s.wlog + [Call(v, Ok)] && s'.written == s.written + [v]
  {
    var test := [Write(v), WLoadTail, WLoadHead, WDecide];
    if IsFull(s) {
      var s4 := s.(wlog := s.wlog + [Call(v, Full)]);
      assert Run(s4, []) && Exec(s4, []) == s4;
      hide Run, Exec, Inv;
      WriteTests(s, v, [], s4);
      assert test + [] == test;
    } else {
      var s4, rest := s.(w := WriterLoad(v)), [WLoad, WStore, WCas];
      hide Run, Exec, Inv;
      RoomInv(s, v);
      WriteLoads(s4);
      WriteTests(s, v, rest, Exec(s4, rest));
      assert test + rest == [Write(v), WLoadTail, WLoadHead, WDecide, WLoad, WStore, WCas];
    }
  }

  lemma Idle(s: Ring)
    requires Inv(s)
    ensures Run(s, []) && Exec(s, []) == s
  {
  }

  lemma FourSteps(s: Ring, a: Step, s1: Ring, b: Step, s2: Ring, c: Step, s3: Ring, d: Step, s4: Ring,
                  rest: seq<Step>, s': Ring)
    requires Inv(s) && Enabled(s, a) && Next(s, a) == s1 && Inv(s1) && Enabled(s1, b) && Next(s1, b) == s2
    requires Inv(s2) && Enabled(s2, c) && Next(s2, c) == s3 && Inv(s3) && Enabled(s3, d) && Next(s3, d) == s4
    requires Run(s4, rest) && Exec(s4, rest) == s'
    ensures Run(s, [a, b, c, d] + rest) && Exec(s, [a, b, c, d] + rest) == s'
  {
    hide Inv, Next, Enabled, Run, Exec;
    RunOne(s3, d, s4, rest, s');
    RunOne(s2, c, s3, [d] + rest, s');
    RunOne(s1, b, s2, [c] + ([d] + rest), s');
    RunOne(s, a, s1, [b] + ([c] + ([d] + rest)), s');
    assert [a] + ([b] + ([c] + ([d] + rest))) == [a, b, c, d] + rest;
  }

  lemma ReadTests(s: Ring, rest: seq<Step>, s': Ring)
    requires Inv(s) && s.r.ReaderIdle?
    requires var s4 := if IsEmpty(s) then s.(rlog := s.rlog + [None]) else s.(r := ReaderLoad);
             Run(s4, rest) && Exec(s4, rest) == s'
    ensures var steps := [Read, RLoadHead, RLoadTail, RDecide] + rest; Run(s, steps) && Exec(s, steps) == s'
  {
    assert |s.written| == |s.taken| + |Between(s.buf, s.head, s.tail)|;
    StepInv(s, Read);
    var s1 := Next(s, Read);
    StepInv(s1, RLoadHead);
    var s2 := Next(s1, RLoadHead);
    StepInv(s2, RLoadTail);
    var s3 := Next(s2, RLoadTail);
    ResultsAreTrue(s3, RDecide);
    hide Inv, Run, Exec, Between;
    StepInv(s3, RDecide);
    FourSteps(s, Read, s1, RLoadHead, s2, RLoadTail, s3, RDecide, Next(s3, RDecide), rest, s');
  }

  lemma ReadLoads(s: Ring)
    requires Inv(s) && s.r.ReaderLoad?
    ensures var steps := [RLoad, RFetch, RCas];
            && Run(s, steps) && |s.taken| < |s.written|
            && var s', x := Exec(s, steps), s.written[|s.taken|];
               s'.r.ReaderIdle? && s'.rlog == s.rlog + [Some(x)] && s'.taken == s.taken + [x]
  {
    StepInv(s, RLoad);
    var s1 := Next(s, RLoad);
    StepInv(s1, RFetch);
    var s2 := Next(s1, RFetch);
    StepInv(s2, RCas);
    NoRetry(s2, RCas);
    var s3 := Next(s2, RCas);
    Idle(s3);
    hide Inv, Run, Exec, Between;
    RunOne(s2, RCas, s3, [], s3);
    RunOne(s1, RFetch, s2, [RCas] + [], s3);
    RunOne(s, RLoad, s1, [RFetch] + ([RCas] + []), s3);
    assert [RLoad] + ([RFetch] + ([RCas] + [])) == [RLoad, RFetch, RCas];
  }

  lemma SomeInv(s: Ring)
    requires Inv(s) && s.r.ReaderIdle? && !IsEmpty(s)
    ensures Inv(s.(r := ReaderLoad)) && s.written[|s.taken|..] == Between(s.buf, s.head, s.tail)
  {
  }

  /** With something in the ring a read that nobody disturbs returns the oldest value, without it NULL. */
  lemma ReadAlone(s: Ring)
    requires Inv(s) && s.r.ReaderIdle?
    ensures IsEmpty(s) ==>
              var steps := [Read, RLoadHead, RLoadTail, RDecide];
              Run(s, steps) && Exec(s, steps) == s.(rlog := s.rlog + [None])
    ensures !IsEmpty(s) ==>
              var steps, x := [Read, RLoadHead, RLoadTail, RDecide, RLoad, RFetch, RCas],
                              Between(s.buf, s.head, s.tail)[0];
              && Run(s, steps)
              && var s' := Exec(s, steps);
                 s'.r.ReaderIdle? && s'.rlog == s.rlog + [Some(x)] && s'.taken == s.taken + [x]
  {
    var test := [Read, RLoadHead, RLoadTail, RDecide];
    if IsEmpty(s) {
      var s4 := s.(rlog := s.rlog + [None]);
      assert Run(s4, []) && Exec(s4, []) == s4;
      hide Run, Exec, Inv;
      ReadTests(s, [], s4);
      assert test + [] == test;
    } else {
      var s4, rest := s.(r := ReaderLoad), [RLoad, RFetch, RCas];
      hide Run, Exec, Inv, Between;
      SomeInv(s);
      ReadLoads(s4);
      ReadTests(s, rest, Exec(s4, rest));
      assert test + rest == [Read, RLoadHead, RLoadTail, RDecide, RLoad, RFetch, RCas];
    }
  }
}
