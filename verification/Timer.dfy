/** The periodic timer (sl_timer_mod_periodic.c with the timeout functions of sl.h and sl.c), in 64-bit
    unsigned cycles.
  */
module Timer {

  const WORD := 0x1_0000_0000_0000_0000
  const HALF := 0x8000_0000_0000_0000

  function U64(x: int): nat {
    x % WORD
  }

  /** The conversion to a signed 64-bit number. */
  function S64(x: nat): int {
    if x < HALF then x else x - WORD
  }

  /** `offset <= 0` in `sl_cs_exit_schedule_nospin_arg`. */
  predicate Expired(next: nat, now: nat) {
    S64(U64(next - now)) <= 0
  }

  /** The sign test is the comparison exactly as long as the two times are less than 2^63 apart (2^63
      itself included when the deadline is the earlier one). */
  lemma SignTestIff(next: nat, now: nat)
    requires next < 0x1_0000_0000_0000_0000 && now < 0x1_0000_0000_0000_0000
    ensures (Expired(next, now) <==> next <= now) <==> -0x8000_0000_0000_0000 <= next - now < 0x8000_0000_0000_0000
  {
    if next < now { assert U64(next - now) == next - now + WORD; }
  }

  /** The first time after `now` that lies a whole number of periods after t0. */
  function Tick(t0: nat, period: nat, now: nat): nat
    requires period > 0 && t0 <= now
  {
    t0 + ((now - t0) / period + 1) * period
  }

  /** It is the only such time within one period of `now`. */
  lemma TickIs(t0: nat, period: nat, now: nat, x: nat)
    requires period > 0 && t0 <= now
    ensures x == Tick(t0, period, now) <==> now < x <= now + period && t0 <= x && (x - t0) % period == 0
  {
    var q, r := (now - t0) / period, (now - t0) % period;
    assert now - t0 == q * period + r;
    var y := Tick(t0, period, now);
    assert y - t0 == (q + 1) * period == q * period + period;
    Multiple(q + 1, period);
    if now < x <= now + period && t0 <= x && (x - t0) % period == 0 {
      var k := (x - t0) / period;
      assert x - t0 == k * period;
      Between(k, q, period, r);
    }
  }

  lemma Multiple(k: nat, p: nat)
    requires p > 0
    ensures (k * p) % p == 0
  {
    var q, r := (k * p) / p, (k * p) % p;
    assert (k - q) * p == r;
    if k - q >= 1 { Grows(k - q, 1, p); }
    if k - q <= -1 { Grows(-1, k - q, p); }
  }

  lemma Grows(a: int, b: int, p: nat)
    requires a >= b
    ensures a * p >= b * p
  {
  }

  lemma Between(k: int, q: int, p: nat, r: nat)
    requires r < p && q * p + r < k * p <= q * p + r + p
    ensures k == q + 1
  {
    if k <= q { Grows(q, k, p); }
    if k >= q + 2 { Grows(k, q + 2, p); }
  }

  lemma Caught(next: nat, now: nat, p: nat)
    requires p > 0 && next <= now
    ensures (now + p - (now - next) % p - next) % p == 0
  {
    var q := (now - next) / p;
    assert now + p - (now - next) % p - next == (q + 1) * p;
    Multiple(q + 1, p);
  }

  lemma SameClass(a: nat, b: nat, p: nat)
    requires p > 0 && a % p == 0 && b % p == 0
    ensures (a + b) % p == 0
  {
    assert a + b == (a / p + b / p) * p;
    Multiple(a / p + b / p, p);
  }

  /** The deadline after one look, as the code computes it. */
  function Looked(next: nat, period: nat, now: nat): nat
    requires period > 0
  {
    if next != 0 && Expired(next, now) then U64(U64(now + period) - U64(now - next) % period) else next
  }

  lemma NoWrap(x: nat)
    requires x < WORD
    ensures U64(x) == x
  {
  }

  /** The arithmetic of `sl_timeout_mod_expended` does not wrap. */
  lemma ExpendedIs(next: nat, now: nat, period: nat)
    requires period > 0 && next <= now && now + period < WORD
    ensures var offset := (now - next) % period;
            && U64(U64(now + period) - U64(now - next) % period) == now + period - offset
            && 0 <= offset < period && (now + period - offset - next) % period == 0
  {
    hide U64;
    NoWrap(now + period);
    NoWrap(now - next);
    Caught(next, now, period);
    NoWrap(now + period - (now - next) % period);
  }

  /** No arithmetic of the look wraps. */
  lemma LookedIs(next: nat, period: nat, now: nat)
    requires period > 0 && 0 < next < HALF && now + period < HALF
    ensures Expired(next, now) <==> next <= now
    ensures Looked(next, period, now) == if next <= now then now + period - (now - next) % period else next
  {
    SignTestIff(next, now);
    hide U64, Expired;
    if next <= now { ExpendedIs(next, now, period); }
  }

  /** A look moves the deadline from tick to tick. */
  lemma LookedIsTick(t0: nat, period: nat, last: nat, now: nat)
    requires period > 0 && t0 <= last <= now && now + period < HALF
    ensures var next := Tick(t0, period, last);
            && 0 < next < HALF
            && (Expired(next, now) <==> next <= now)
            && Looked(next, period, now) == Tick(t0, period, now)
            && Tick(t0, period, now) == if next <= now then now + period - (now - next) % period else next
  {
    hide U64, Expired, Looked, Tick;
    var next := Tick(t0, period, last);
    TickIs(t0, period, last, next);
    LookedIs(next, period, now);
    var x := Looked(next, period, now);
    if next <= now {
      ExpendedIs(next, now, period);
      SameClass(next - t0, x - next, period);
    }
    TickIs(t0, period, now, x);
  }

  /** The timer fields of `struct sl_global`. */
  class Global {
    var period: nat
    var timerNext: nat
    /** When the period was set, and the latest time the timer was looked at. */
    ghost var t0: nat
    ghost var last: nat

    /** The deadline is the first tick after the latest look.  Times and one period more stay below
        2^63. */
    ghost predicate Valid()
      reads this
    {
      0 < period && t0 <= last && last + period < HALF && timerNext == Tick(t0, period, last)
    }

    /** `sl_timeout_oneshot`. */
    method Oneshot(absolute: nat)
      modifies `timerNext
      ensures timerNext == absolute
    {
      timerNext := absolute;
    }

    /** `sl_timeout_relative` at time `now`. */
    method Relative(now: nat, offset: nat)
      modifies `timerNext
      ensures timerNext == U64(now + offset)
    {
      Oneshot(U64(now + offset));
    }

    /** `sl_timeout_period` at time `now`, for a period of `p` cycles. */
    method Period(now: nat, p: nat)
      requires p > 0 && now + p < HALF
      modifies this
      ensures Valid() && period == p && t0 == last == now && timerNext == now + p
    {
      period := p;
      Relative(now, p);
      t0, last := now, now;
      TickIs(now, p, now, now + p);
    }

    /** `sl_timeout_mod_expended`. */
    method Expended(now: nat, oldTimeout: nat)
      requires period > 0 && oldTimeout <= now && now + period < WORD
      modifies `timerNext
      ensures timerNext == now + period - (now - oldTimeout) % period
      ensures now < timerNext <= now + period && (timerNext - oldTimeout) % period == 0
    {
      hide U64;
      assert now >= oldTimeout;
      ExpendedIs(oldTimeout, now, period);
      NoWrap(now - oldTimeout);
      var offset := U64(now - oldTimeout) % period;
      Oneshot(U64(U64(now + period) - offset));
    }

    /** The look at the timer in `sl_cs_exit_schedule_nospin_arg` at time `now`. */
    method Look(now: nat) returns (expired: bool)
      requires Valid() && last <= now && now + period < HALF
      modifies `timerNext, `last
      ensures Valid() && last == now && t0 == old(t0)
      ensures expired <==> old(timerNext) <= now
      ensures !expired ==> timerNext == old(timerNext)
    {
      hide U64, Tick, Expired, Looked;
      LookedIsTick(t0, period, last, now);
      expired := timerNext != 0 && Expired(timerNext, now);
      if expired {
        Expended(now, timerNext);
      }
      last := now;
    }
  }

  // ----- over any sequence of looks -----

  ghost predicate Ascending(t0: nat, times: seq<nat>, limit: nat) {
    forall i :: 0 <= i < |times| ==> t0 <= times[i] < limit && (i > 0 ==> times[i - 1] <= times[i])
  }

  function Deadline(next: nat, period: nat, times: seq<nat>): nat
    requires period > 0
  {
    if |times| == 0 then next
    else Looked(Deadline(next, period, times[..|times| - 1]), period, times[|times| - 1])
  }

  /** However late the looks come and however many periods they miss, the deadline stays on the grid of
      the first one: it is always the first tick after the latest look. */
  lemma {:induction false} NoDrift(t0: nat, period: nat, times: seq<nat>)
    requires period > 0 && t0 + period < HALF && Ascending(t0, times, HALF - period)
    ensures Deadline(t0 + period, period, times) ==
            Tick(t0, period, if |times| == 0 then t0 else times[|times| - 1])
    decreases |times|
  {
    if |times| == 0 {
      TickIs(t0, period, t0, t0 + period);
    } else {
      var before := times[..|times| - 1];
      NoDrift(t0, period, before);
      var last := if |before| == 0 then t0 else before[|before| - 1];
      LookedIsTick(t0, period, last, times[|times| - 1]);
    }
  }
}
