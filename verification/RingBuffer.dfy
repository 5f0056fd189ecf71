/** The overwriting byte ring of lib/ring_buffer.h, refined to a queue that keeps the last `max` bytes. */
module RingBuffer {
  import opened Common
  import opened LossyQueue

  /** The `i`-th slot after `start` in a circular store of `m` slots. */
  function Slot(start: nat, i: nat, m: nat): nat
    requires start < m && i <= m
  {
    if start + i < m then start + i else start + i - m
  }

  /** The `n` bytes found by walking the circular store `data` from slot `start`. */
  function Window(data: seq<byte>, start: nat, n: nat): (w: seq<byte>)
    requires start < |data| && n <= |data|
    ensures |w| == n
  {
    seq(n, i requires 0 <= i < n => data[Slot(start, i, |data|)])
  }

  lemma StepIsSlot(h: nat, m: nat)
    requires h < m
    ensures (h + 1) % m == Slot(h, 1, m)
  {
    if h + 1 < m {
      assert (h + 1) % m == h + 1;
    }
  }

  lemma WindowPush(data: seq<byte>, start: nat, n: nat, b: byte)
    requires start < |data| && n < |data|
    ensures Window(data[Slot(start, n, |data|) := b], start, n + 1) == Window(data, start, n) + [b]
  {
    var data' := data[Slot(start, n, |data|) := b];
    forall i | 0 <= i < n + 1
      ensures Window(data', start, n + 1)[i] == (Window(data, start, n) + [b])[i]
    {
    }
  }

  lemma WindowOverwrite(data: seq<byte>, start: nat, b: byte)
    requires start < |data|
    ensures Window(data[start := b], Slot(start, 1, |data|), |data|) == Window(data, start, |data|)[1..] + [b]
  {
    var m := |data|;
    var lhs, rhs := Window(data[start := b], Slot(start, 1, m), m), Window(data, start, m)[1..] + [b];
    forall i | 0 <= i < m ensures lhs[i] == rhs[i] {
    }
  }

  lemma WindowPop(data: seq<byte>, start: nat, n: nat)
    requires start < |data| && 0 < n <= |data|
    ensures Window(data, start, n)[1..] == Window(data, Slot(start, 1, |data|), n - 1)
  {
    forall i | 0 <= i < n - 1
      ensures Window(data, start, n)[1..][i] == Window(data, Slot(start, 1, |data|), n - 1)[i]
    {
    }
  }

  /** The slot a ring of `n` readable bytes writes next. */
  function HeadSlot(start: nat, n: nat, m: nat): nat
    requires start < m && n <= m
  {
    if n == m then start else Slot(start, n, m)
  }

  /** One push, full or not: the tail moves on exactly when the ring was full. */
  lemma WindowStore(data: seq<byte>, start: nat, n: nat, b: byte)
    requires start < |data| && n <= |data|
    ensures var m := |data|;
            Window(data[HeadSlot(start, n, m) := b], if n == m then Slot(start, 1, m) else start,
                   if n == m then m else n + 1)
            == KeepLast(m, Window(data, start, n) + [b])
  {
    if n == |data| {
      WindowOverwrite(data, start, b);
      assert (Window(data, start, n) + [b])[1..] == Window(data, start, n)[1..] + [b];
    } else {
      WindowPush(data, start, n, b);
    }
  }

  /** Overwriting the first `len` slots with any bytes keeps the readable bytes exactly when none of
      them lives in those slots. */
  predicate Clear(tail: nat, n: nat, len: nat, m: nat) {
    n == 0 || len == 0 || (len <= tail && tail + n <= m)
  }

  function Overlay(data: seq<byte>, out: seq<byte>): seq<byte>
    requires |out| <= |data|
  {
    out + data[|out|..]
  }

  /** A byte differing from `b`. */
  function Other(b: byte): byte {
    if b == 0 then 1 else 0
  }

  lemma OverlayHarmlessIff(data: seq<byte>, tail: nat, n: nat, len: nat)
    requires tail < |data| && n <= |data| && len <= |data|
    ensures Clear(tail, n, len, |data|)
            <==> (forall out: seq<byte> :: |out| == len ==>
                    Window(Overlay(data, out), tail, n) == Window(data, tail, n))
  {
    var m := |data|;
    if Clear(tail, n, len, m) {
      forall out: seq<byte> | |out| == len
        ensures Window(Overlay(data, out), tail, n) == Window(data, tail, n)
      {
      }
    } else {
      var i := if tail < len then 0 else m - tail;
      var s := Slot(tail, i, m);
      var out: seq<byte> := seq(len, k requires 0 <= k < len => Other(data[k]));
      assert Window(Overlay(data, out), tail, n)[i] == Other(data[s]);
      assert Window(data, tail, n)[i] == data[s];
    }
  }

  /** The array after the bytes of `chunk` were written from slot `head` on. */
  function Written(data: seq<byte>, head: nat, chunk: seq<byte>): (r: seq<byte>)
    requires head < |data| && |chunk| <= |data|
    ensures |r| == |data|
    decreases |chunk|
  {
    if chunk == [] then data
    else Written(data, head, chunk[..|chunk| - 1])[Slot(head, |chunk| - 1, |data|) := chunk[|chunk| - 1]]
  }

  lemma {:induction false} WrittenBehind(data: seq<byte>, head: nat, chunk: seq<byte>, len: nat)
    requires head < |data| && |chunk| <= |data| && len <= |data| && Clear(head, |chunk|, len, |data|)
    ensures Written(data, head, chunk)[..len] == data[..len]
    decreases |chunk|
  {
    if chunk != [] {
      WrittenBehind(data, head, chunk[..|chunk| - 1], len);
    }
  }

  lemma {:induction false} WrittenAt(data: seq<byte>, head: nat, chunk: seq<byte>, k: nat)
    requires head < |data| && k < |chunk| <= |data|
    ensures Written(data, head, chunk)[Slot(head, k, |data|)] == chunk[k]
    decreases |chunk|
  {
    if k < |chunk| - 1 {
      WrittenAt(data, head, chunk[..|chunk| - 1], k);
    }
  }

  /** A copy of n bytes keeps the first `len` slots, whatever it copies, exactly when it lands behind them. */
  lemma WrittenBehindIff(data: seq<byte>, head: nat, n: nat, len: nat)
    requires head < |data| && n <= |data| && len <= |data|
    ensures Clear(head, n, len, |data|)
            <==> (forall chunk: seq<byte> :: |chunk| == n ==> Written(data, head, chunk)[..len] == data[..len])
  {
    var m := |data|;
    if Clear(head, n, len, m) {
      forall chunk: seq<byte> | |chunk| == n ensures Written(data, head, chunk)[..len] == data[..len] {
        WrittenBehind(data, head, chunk, len);
      }
    } else {
      var k := if head < len then 0 else m - head;
      var slot := Slot(head, k, m);
      var chunk: seq<byte> := seq(n, _ => Other(data[slot]));
      WrittenAt(data, head, chunk, k);
      assert Written(data, head, chunk)[..len][slot] != data[..len][slot];
    }
  }

  /** Is `slot` one of the `n` slots from `head` on? */
  predicate Among(slot: nat, head: nat, n: nat, m: nat)
    requires head < m && slot < m
  {
    (if slot >= head then slot - head else slot + m - head) < n
  }

  lemma {:induction false} WrittenElsewhere(data: seq<byte>, head: nat, chunk: seq<byte>, slot: nat, b: byte)
    requires head < |data| && |chunk| <= |data| && slot < |data| && !Among(slot, head, |chunk|, |data|)
    ensures Written(data[slot := b], head, chunk) == Written(data, head, chunk)[slot := b]
    decreases |chunk|
  {
    if chunk != [] {
      WrittenElsewhere(data, head, chunk[..|chunk| - 1], slot, b);
    }
  }

  lemma {:induction false} WrittenInTwo(data: seq<byte>, head: nat, xs: seq<byte>, ys: seq<byte>)
    requires head < |data| && |xs| + |ys| <= |data| && |xs| < |data|
    ensures Written(data, head, xs + ys) == Written(Written(data, head, xs), Slot(head, |xs|, |data|), ys)
    decreases |ys|
  {
    if ys == [] {
      assert xs + ys == xs;
    } else {
      var init := ys[..|ys| - 1];
      WrittenInTwo(data, head, xs, init);
      assert (xs + ys)[..|xs + ys| - 1] == xs + init;
    }
  }

  /** A store by another thread between two bytes of a copy is as good as the same store before the whole
      copy or after it: a copy of no more bytes than the array has writes every slot at most once. */
  lemma StoreInsideCopy(data: seq<byte>, head: nat, xs: seq<byte>, ys: seq<byte>, slot: nat, b: byte)
    requires head < |data| && |xs| + |ys| <= |data| && |xs| < |data| && slot < |data|
    ensures var inside := Written(Written(data, head, xs)[slot := b], Slot(head, |xs|, |data|), ys);
            || inside == Written(data[slot := b], head, xs + ys)
            || inside == Written(data, head, xs + ys)[slot := b]
  {
    var next := Slot(head, |xs|, |data|);
    if Among(slot, head, |xs|, |data|) {
      WrittenElsewhere(Written(data, head, xs), next, ys, slot, b);
      WrittenInTwo(data, head, xs, ys);
    } else {
      WrittenElsewhere(data, head, xs, slot, b);
      WrittenInTwo(data[slot := b], head, xs, ys);
    }
  }

  /** A ring that held `before` with its tail at `start`, after `chunk` was pushed onto it. */
  ghost predicate Copied(contents: seq<byte>, tail: nat, m: nat, before: seq<byte>, start: nat, chunk: seq<byte>)
    requires start < m
  {
    var drop := Overflow(m, |before|, |chunk|);
    && contents == KeepLast(m, before + chunk)
    && (drop <= m ==> tail == Slot(start, drop, m))
  }

  lemma CopyStep(contents: seq<byte>, tail: nat, m: nat, before: seq<byte>, start: nat, chunk: seq<byte>, b: byte)
    requires start < m && tail < m && |before| <= m
    requires Copied(contents, tail, m, before, start, chunk)
    ensures Copied(KeepLast(m, contents + [b]), if |contents| == m then Slot(tail, 1, m) else tail, m,
                   before, start, chunk + [b])
  {
    KeepLastTwice(m, before + chunk, [b]);
    assert before + chunk + [b] == before + (chunk + [b]);
  }

  /** A ring whose array and head slot were `data` and `first` before `chunk` was pushed onto it. */
  ghost predicate CopiedInto(now: seq<byte>, head: nat, data: seq<byte>, first: nat, chunk: seq<byte>)
    requires first < |data|
  {
    |chunk| <= |data| ==> now == Written(data, first, chunk) && head == Slot(first, |chunk|, |data|)
  }

  lemma CopyIntoStep(now: seq<byte>, head: nat, data: seq<byte>, first: nat, chunk: seq<byte>, b: byte)
    requires first < |data| == |now| && head < |data| && CopiedInto(now, head, data, first, chunk)
    ensures CopiedInto(now[head := b], Slot(head, 1, |data|), data, first, chunk + [b])
  {
    assert (chunk + [b])[..|chunk|] == chunk;
  }

  class Ring {
    var buffer: array<byte>
    var head: nat
    var tail: nat
    var max: nat
    var full: bool

    ghost predicate Valid()
      reads this
    {
      && 0 < max <= buffer.Length
      && head < max
      && tail < max
      && (full ==> head == tail)
    }

    function Count(): nat
      requires Valid()
      reads this
    {
      if full then max else if head >= tail then head - tail else max + head - tail
    }

    /** The queue this ring stands for, oldest byte first. */
    ghost function Contents(): (s: seq<byte>)
      requires Valid()
      reads this, buffer
      ensures |s| == Count()
    {
      Window(buffer[..max], tail, Count())
    }

    constructor (storage: array<byte>, size: nat)
      requires 0 < size <= storage.Length
      ensures Valid() && buffer == storage && max == size && tail == 0
      ensures Contents() == []
    {
      buffer, head, tail, max, full := storage, 0, 0, size, false;
    }

    method Reset()
      requires Valid()
      modifies this
      ensures Valid() && buffer == old(buffer) && max == old(max)
      ensures Contents() == []
    {
      head, tail, full := 0, 0, false;
    }

    method IsEmpty() returns (r: bool)
      requires Valid()
      ensures r <==> Contents() == []
    {
      r := !full && head == tail;
    }

    method IsFull() returns (r: bool)
      requires Valid()
      ensures r <==> |Contents()| == max
    {
      r := full;
    }

    method Size() returns (size: nat)
      requires Valid()
      ensures size == |Contents()|
    {
      size := max;
      if !full {
        if head >= tail {
          size := head - tail;
        } else {
          size := max + head - tail;
        }
      }
    }

    method Available() returns (room: nat)
      requires Valid()
      ensures room + |Contents()| == max
    {
      var size := Size();
      room := max - size;
    }

    method Push(b: byte)
      requires Valid()
      modifies this, buffer
      ensures Valid() && buffer == old(buffer) && max == old(max)
      ensures Contents() == KeepLast(max, old(Contents()) + [b])
      ensures tail == if old(|Contents()|) == max then Slot(old(tail), 1, max) else old(tail)
      ensures buffer[..max] == old(buffer[..max][head := b]) && head == Slot(old(head), 1, max)
    {
      ghost var data, n, start := buffer[..max], Count(), tail;
      assert head == HeadSlot(start, n, max);
      StepIsSlot(head, max);
      buffer[head] := b;
      assert buffer[..max] == data[HeadSlot(start, n, max) := b];
      head := (head + 1) % max;
      if head == tail {
        full := true;
      }
      if full {
        tail := head;
      }
      assert tail == if n == max then Slot(start, 1, max) else start;
      assert Count() == if n == max then max else n + 1;
      WindowStore(data, start, n, b);
    }

    method Pop() returns (b: byte)
      requires Valid()
      modifies this
      ensures Valid() && buffer == old(buffer) && max == old(max)
      ensures old(Contents()) == [] ==> b == 0 && Contents() == [] && tail == old(tail)
      ensures old(Contents()) != [] ==>
                && b == old(Contents())[0]
                && Contents() == old(Contents())[1..]
                && tail == Slot(old(tail), 1, max)
    {
      var empty := IsEmpty();
      if empty {
        return 0;
      }
      WindowPop(buffer[..max], tail, Count());
      StepIsSlot(tail, max);
      b := buffer[tail];
      tail := (tail + 1) % max;
      full := false;
    }

    method CopyTo(dst: array<byte>, size: nat) returns (i: nat)
      requires Valid() && 0 < size <= dst.Length && dst != buffer
      modifies this, dst
      ensures Valid() && buffer == old(buffer) && max == old(max)
      ensures i == if size < |old(Contents())| then size else |old(Contents())|
      ensures dst[..i] == old(Contents())[..i] && dst[i..] == old(dst[i..])
      ensures Contents() == old(Contents())[i..]
    {
      i := 0;
      while i < size && !(!full && head == tail)
        invariant Valid() && buffer == old(buffer) && max == old(max)
        invariant i <= size && i <= |old(Contents())|
        invariant Contents() == old(Contents())[i..]
        invariant buffer[..] == old(buffer[..])
        invariant dst[..i] == old(Contents())[..i] && dst[i..] == old(dst[i..])
      {
        var b := Pop();
        dst[i] := b;
        i := i + 1;
      }
    }

    method CopyFrom(src: array<byte>, size: nat)
      requires Valid() && 0 < size <= src.Length && src != buffer
      modifies this, buffer
      ensures Valid() && buffer == old(buffer) && max == old(max)
      ensures Contents() == KeepLast(max, old(Contents()) + src[..size])
      ensures var drop := Overflow(max, old(|Contents()|), size);
              drop <= max ==> tail == Slot(old(tail), drop, max)
      ensures size <= max ==> buffer[..max] == Written(old(buffer[..max]), old(head), src[..size])
    {
      ghost var before, start := Contents(), tail;
      ghost var data, first := buffer[..max], head;
      var i := 0;
      while i < size
        invariant Valid() && buffer == old(buffer) && max == old(max)
        invariant i <= size && src[..] == old(src[..])
        invariant Copied(Contents(), tail, max, before, start, src[..i])
        invariant CopiedInto(buffer[..max], head, data, first, src[..i])
      {
        CopyOne(src[i], src[..i], before, start, data, first);
        assert src[..i + 1] == src[..i] + [src[i]];
        i := i + 1;
      }
    }

    /** The body of the copy loop: `done` was copied before. */
    method CopyOne(b: byte, ghost done: seq<byte>, ghost before: seq<byte>, ghost start: nat,
                   ghost data: seq<byte>, ghost first: nat)
      requires Valid() && start < max == |data| && first < max && |before| <= max
      requires Copied(Contents(), tail, max, before, start, done)
      requires CopiedInto(buffer[..max], head, data, first, done)
      modifies this, buffer
      ensures Valid() && buffer == old(buffer) && max == old(max)
      ensures Copied(Contents(), tail, max, before, start, done + [b])
      ensures CopiedInto(buffer[..max], head, data, first, done + [b])
    {
      CopyStep(Contents(), tail, max, before, start, done, b);
      CopyIntoStep(buffer[..max], head, data, first, done, b);
      Push(b);
    }
  }
}
