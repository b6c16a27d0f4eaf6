/** rbuf.c: the ring buffer of one kernel thread, proved to be a bounded first-in first-out queue. */
module RingBuffer {

  const INFINITE_CAP := 1024
  const PAGESIZE := 10 * 1024 * 1024
  const WORD := 0x1_0000_0000
  const CELL_SIZE := 4

  datatype WriteState = Ok | Full | Error

  /** Unsigned 32-bit arithmetic. */
  function U32(x: int): nat {
    x % WORD
  }

  // ----- how much memory a buffer gets -----

  /** `rb->capacity`: one cell more than requested, so that full and empty differ. */
  function Cells(requested: nat): nat {
    U32((if requested == 0 then INFINITE_CAP else requested) + 1)
  }

  /** The argument of the second `kalloc`, converted to int. */
  function Bytes(cells: nat): int {
    var n := U32(CELL_SIZE * cells);
    if n < WORD / 2 then n else n - WORD
  }

  /** The assertion at the head of `kalloc`. */
  predicate Accepted(bytes: int) {
    0 < bytes <= PAGESIZE
  }

  /** The size limit of the allocator bounds the byte count it is given, which is the number of bytes the
      cells need only when their product does not wrap. */
  lemma RoomIff(requested: nat)
    requires requested < WORD && Accepted(Bytes(Cells(requested)))
    ensures Bytes(Cells(requested)) == 4 * Cells(requested) <==> requested < 0x4000_0000 - 1
    ensures requested < WORD / CELL_SIZE - 1 ==> 2 <= Cells(requested) <= PAGESIZE / CELL_SIZE
  {
    var cells := Cells(requested);
    assert requested == 0 ==> cells == INFINITE_CAP + 1;
    assert requested == WORD - 1 ==> cells == 0;
    assert 0 < requested < WORD - 1 ==> cells == requested + 1;
    assert CELL_SIZE * cells < WORD ==> U32(CELL_SIZE * cells) == CELL_SIZE * cells;
  }

  /** A request above that bound which the limit lets through: it gets the room of one cell. */
  lemma LimitMissesWrap()
    ensures Accepted(Bytes(Cells(0x4000_0000)))
    ensures Bytes(Cells(0x4000_0000)) == 4 && Cells(0x4000_0000) == 0x4000_0001
  {
  }

  // ----- the queue -----

  /** The values from index head on, wrapping at the end, up to and not including index tail. */
  function Between(buf: seq<nat>, head: nat, tail: nat): (q: seq<nat>)
    requires head < |buf| && tail < |buf|
    ensures |q| == if head <= tail then tail - head else |buf| - head + tail
  {
    if head <= tail then buf[head..tail] else buf[head..] + buf[..tail]
  }

  /** The next index. */
  function After(i: nat, cells: nat): nat
    requires i < cells
  {
    if i + 1 == cells then 0 else i + 1
  }

  lemma SmallMod(x: nat, m: nat)
    requires x < m
    ensures x % m == x && (x + m) % m == x
  {
  }

  /** No index computation of the buffer wraps at 32 bits, so its `%` is what wraps the index. */
  lemma NextIndex(i: nat, cells: nat)
    requires i < cells && 2 <= cells <= PAGESIZE / CELL_SIZE
    ensures U32(i + 1) % cells == After(i, cells)
  {
    SmallMod(i + 1, WORD);
    if i + 1 < cells { SmallMod(i + 1, cells); } else { SmallMod(0, cells); }
  }

  lemma IndexDistance(i: nat, j: nat, cells: nat)
    requires i < cells && j < cells && 2 <= cells <= PAGESIZE / CELL_SIZE
    ensures U32(U32(i + cells) - j) % cells == if j <= i then i - j else cells - j + i
  {
    SmallMod(i + cells, WORD);
    SmallMod(i + cells - j, WORD);
    if j <= i { SmallMod(i - j, cells); } else { SmallMod(i + cells - j, cells); }
  }

  /** Storing at tail and advancing it appends; the slot was free. */
  lemma AppendAt(buf: seq<nat>, head: nat, tail: nat, v: nat)
    requires head < |buf| && tail < |buf| && After(tail, |buf|) != head
    ensures Between(buf[tail := v], head, After(tail, |buf|)) == Between(buf, head, tail) + [v]
  {
    var b := buf[tail := v];
    if tail < head {
      assert b[head..] == buf[head..];
      assert b[..tail + 1] == buf[..tail] + [v];
    } else if tail + 1 < |buf| {
      assert b[head..tail + 1] == buf[head..tail] + [v];
    } else {
      assert b[head..] + b[..0] == buf[head..tail] + [v];
    }
  }

  lemma Prepend(v: nat, a: seq<nat>, b: seq<nat>, c: seq<nat>)
    requires a == [v] + b
    ensures a + c == [v] + (b + c)
  {
  }

  /** Advancing head removes the oldest value. */
  lemma RemoveAt(buf: seq<nat>, head: nat, tail: nat)
    requires head < |buf| && tail < |buf| && head != tail
    ensures Between(buf, head, tail) == [buf[head]] + Between(buf, After(head, |buf|), tail)
  {
    if head < tail {
      assert buf[head..tail] == [buf[head]] + buf[head + 1..tail];
    } else if head + 1 < |buf| {
      Prepend(buf[head], buf[head..], buf[head + 1..], buf[..tail]);
    } else {
      assert buf[head..] == [buf[head]] && buf[0..tail] == buf[..tail];
    }
  }

  /** `rbuf_t`; values are pointers, 0 standing for NULL. */
  class Rbuf {
    const capacity: nat
    const buf: array<nat>
    var head: nat
    var tail: nat

    ghost predicate Valid()
      reads this
    {
      && 2 <= capacity <= PAGESIZE / CELL_SIZE && buf.Length == capacity
      && head < capacity && tail < capacity
    }

    ghost function Contents(): seq<nat>
      requires Valid()
      reads this, buf
    {
      Between(buf[..], head, tail)
    }

    /** `rbuf_init`, for a request whose cells get the room they need. */
    constructor (requested: nat)
      requires requested < WORD / CELL_SIZE - 1 && Accepted(Bytes(Cells(requested)))
      ensures Valid() && fresh(buf) && Contents() == []
      ensures capacity - 1 == if requested == 0 then 1024 else requested
    {
      RoomIff(requested);
      capacity := Cells(requested);
      buf := new nat[Cells(requested)](i => 0);
      head, tail := 0, 0;
    }

    /** `rbuf_size`. */
    method Size() returns (n: nat)
      requires Valid()
      ensures n == |Contents()|
    {
      IndexDistance(tail, head, capacity);
      n := U32(U32(tail + capacity) - head) % capacity;
    }

    /** `rbuf_isempty`. */
    method IsEmpty() returns (empty: bool)
      requires Valid()
      ensures empty <==> Contents() == []
    {
      empty := head == tail;
    }

    /** `rbuf_isfull`. */
    method IsFull() returns (full: bool)
      requires Valid()
      ensures full <==> |Contents()| == capacity - 1
    {
      NextIndex(tail, capacity);
      full := U32(tail + 1) % capacity == head;
    }

    /** `rbuf_erase`. */
    method Erase()
      requires Valid()
      modifies `head, `tail
      ensures Valid() && Contents() == []
    {
      head, tail := 0, 0;
    }

    /** `rbuf_write`. */
    method Write(data: nat) returns (r: WriteState)
      requires Valid()
      modifies `tail, buf
      ensures Valid()
      ensures r == (if data == 0 then Error else if |old(Contents())| == capacity - 1 then Full else Ok)
      ensures Contents() == old(Contents()) + if r == Ok then [data] else []
    {
      if data == 0 {
        return Error;
      }
      var full := IsFull();
      if full {
        return Full;
      }
      NextIndex(tail, capacity);
      AppendAt(buf[..], head, tail, data);
      buf[tail] := data;
      tail := U32(tail + 1) % capacity;
      r := Ok;
    }

    /** `rbuf_read`. */
    method Read() returns (data: nat)
      requires Valid()
      modifies `head
      ensures Valid()
      ensures if old(Contents()) == [] then data == 0 && Contents() == []
              else old(Contents()) == [data] + Contents()
    {
      var empty := IsEmpty();
      if empty {
        return 0;
      }
      NextIndex(head, capacity);
      RemoveAt(buf[..], head, tail);
      data := buf[head];
      head := U32(head + 1) % capacity;
    }
  }
}
