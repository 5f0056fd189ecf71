/** Whole runs of the byte ring: what any sequence of calls delivers, keeps and forgets. */
module RingRuns {
  import opened Common
  import opened LossyQueue
  import RingBuffer

  datatype Op = Push(b: byte) | Pop | CopyTo(size: nat) | CopyFrom(chunk: seq<byte>)

  /** The readable bytes of a ring and everything its reader got, as the contracts of
      RingBuffer.Ring change them. The filler of a pop on an empty ring is not a delivery. */
  datatype View = View(contents: seq<byte>, out: seq<byte>)

  function Call(cap: nat, v: View, op: Op): View {
    match op
    case Push(b) => View(KeepLast(cap, v.contents + [b]), v.out)
    case Pop => if v.contents == [] then v else View(v.contents[1..], v.out + v.contents[..1])
    case CopyTo(size) =>
      var i := if size < |v.contents| then size else |v.contents|;
      View(v.contents[i..], v.out + v.contents[..i])
    case CopyFrom(chunk) => View(KeepLast(cap, v.contents + chunk), v.out)
  }

  function Calls(cap: nat, v: View, ops: seq<Op>): View {
    if ops == [] then v else Call(cap, Calls(cap, v, ops[..|ops| - 1]), ops[|ops| - 1])
  }

  /** Everything the calls wrote, in order. */
  function Written(ops: seq<Op>): seq<byte> {
    if ops == [] then [] else
    var w := Written(ops[..|ops| - 1]);
    match ops[|ops| - 1]
    case Push(b) => w + [b]
    case CopyFrom(chunk) => w + chunk
    case _ => w
  }

  ghost function TakeMany(q: Queue<byte>, n: nat): Queue<byte> {
    if n == 0 then q else Take(TakeMany(q, n - 1))
  }

  lemma {:induction false} TakeManyOldest(q: Queue<byte>, n: nat)
    requires Sound(q) && n <= |Contents(q)|
    ensures var q' := TakeMany(q, n);
            && Sound(q')
            && q'.written == q.written
            && Contents(q') == Contents(q)[n..]
            && Delivered(q') == Delivered(q) + Contents(q)[..n]
            && Lost(q') == Lost(q)
  {
    if n > 0 {
      TakeManyOldest(q, n - 1);
      var q', c := TakeMany(q, n - 1), Contents(q);
      TakeOldest(q');
      assert c[n - 1..][1..] == c[n..] && c[n - 1..][0] == c[n - 1];
      assert Delivered(q) + c[..n - 1] + [c[n - 1]] == Delivered(q) + c[..n];
    }
  }

  /** The view of a ring is explained by absolute positions in the stream of written bytes. */
  ghost predicate Explains(q: Queue<byte>, cap: nat, v: View, written: seq<byte>) {
    && Sound(q)
    && q.written == written
    && Contents(q) == v.contents
    && Delivered(q) == v.out
    && |v.contents| <= cap
  }

  /** The same call on absolute positions. */
  ghost function Track(cap: nat, q: Queue<byte>, op: Op): Queue<byte>
    requires q.rd <= |q.written|
  {
    var held := |Contents(q)|;
    match op
    case Push(b) => Store(q, [b], Overflow(cap, held, 1))
    case CopyFrom(chunk) => Store(q, chunk, Overflow(cap, held, |chunk|))
    case Pop => TakeMany(q, if held == 0 then 0 else 1)
    case CopyTo(size) => TakeMany(q, if size < held then size else held)
  }

  lemma WriteExplained(q: Queue<byte>, cap: nat, v: View, written: seq<byte>, chunk: seq<byte>)
    requires Explains(q, cap, v, written)
    ensures Explains(Store(q, chunk, Overflow(cap, |Contents(q)|, |chunk|)), cap,
                     View(KeepLast(cap, v.contents + chunk), v.out), written + chunk)
  {
    StoreKeepsLast(q, chunk, cap);
  }

  lemma TakeExplained(q: Queue<byte>, cap: nat, v: View, written: seq<byte>, n: nat)
    requires Explains(q, cap, v, written) && n <= |v.contents|
    ensures Explains(TakeMany(q, n), cap, View(v.contents[n..], v.out + v.contents[..n]), written)
  {
    TakeManyOldest(q, n);
  }

  lemma CallExplained(q: Queue<byte>, cap: nat, v: View, written: seq<byte>, op: Op)
    requires Explains(q, cap, v, written)
    ensures Explains(Track(cap, q, op), cap, Call(cap, v, op), written + Written([op]))
  {
    WrittenOne(op);
    assert written + [] == written && v.out + [] == v.out;
    match op {
      case Push(b) => WriteExplained(q, cap, v, written, [b]);
      case CopyFrom(chunk) => WriteExplained(q, cap, v, written, chunk);
      case Pop => TakeExplained(q, cap, v, written, if v.contents == [] then 0 else 1);
      case CopyTo(size) => TakeExplained(q, cap, v, written, if size < |v.contents| then size else |v.contents|);
    }
  }

  lemma WrittenOne(op: Op)
    ensures Written([op]) == (match op case Push(b) => [b] case CopyFrom(chunk) => chunk case _ => [])
  {
    assert [op][..0] == [];
    assert Written([]) == [];
  }

  ghost function TrackAll(cap: nat, ops: seq<Op>): (q: Queue<byte>)
    ensures Explains(q, cap, Calls(cap, View([], []), ops), Written(ops))
  {
    if ops == [] then
      assert Delivered(Empty<byte>()) == [];
      Empty()
    else
      var before, op := ops[..|ops| - 1], ops[|ops| - 1];
      var q := TrackAll(cap, before);
      CallExplained(q, cap, Calls(cap, View([], []), before), Written(before), op);
      assert Written(ops) == Written(before) + Written([op]) by { assert [op][..0] == []; }
      Track(cap, q, op)
  }

  /** For every run from an empty ring: the reader's bytes sit at strictly increasing positions of
      the written stream, the readable bytes are a suffix of it, and nothing is counted twice. */
  lemma {:induction false} RunIsOrdered(cap: nat, ops: seq<Op>)
    ensures var v, q := Calls(cap, View([], []), ops), TrackAll(cap, ops);
            && |q.taken| == |v.out|
            && IncreasingBelow(q.taken, |Written(ops)|)
            && (forall k :: 0 <= k < |v.out| ==> v.out[k] == Written(ops)[q.taken[k]])
            && |v.contents| <= |Written(ops)|
            && v.contents == Written(ops)[|Written(ops)| - |v.contents|..]
            && Lost(q) >= 0
            && |v.out| + Lost(q) + |v.contents| == |Written(ops)|
  {
    Conservation(TrackAll(cap, ops));
  }

  predicate Callable(op: Op) {
    match op
    case CopyTo(size) => size > 0
    case CopyFrom(chunk) => chunk != []
    case _ => true
  }

  /** One call on the in-place ring; `got` grows by what it hands over. */
  method Perform(ring: RingBuffer.Ring, op: Op, got: seq<byte>) returns (out: seq<byte>)
    requires ring.Valid() && Callable(op)
    modifies ring, ring.buffer
    ensures ring.Valid() && ring.buffer == old(ring.buffer) && ring.max == old(ring.max)
    ensures View(ring.Contents(), out) == Call(ring.max, View(old(ring.Contents()), got), op)
  {
    out := got;
    match op {
      case Push(b) =>
        ring.Push(b);
      case Pop =>
        var empty := ring.IsEmpty();
        var b := ring.Pop();
        out := if empty then got else got + [b];
      case CopyTo(size) =>
        var dst := new byte[size];
        var n := ring.CopyTo(dst, size);
        out := got + dst[..n];
      case CopyFrom(chunk) =>
        var src := new byte[|chunk|](k requires 0 <= k < |chunk| => chunk[k]);
        assert src[..|chunk|] == chunk;
        ring.CopyFrom(src, |chunk|);
    }
  }

  /** Any sequence of calls: the in-place ring and the view above agree throughout. */
  method Drive(ring: RingBuffer.Ring, ops: seq<Op>) returns (out: seq<byte>)
    requires ring.Valid() && forall i :: 0 <= i < |ops| ==> Callable(ops[i])
    modifies ring, ring.buffer
    ensures ring.Valid() && ring.buffer == old(ring.buffer) && ring.max == old(ring.max)
    ensures View(ring.Contents(), out) == Calls(ring.max, View(old(ring.Contents()), []), ops)
  {
    out := [];
    ghost var start := View(ring.Contents(), []);
    var i := 0;
    while i < |ops|
      invariant i <= |ops|
      invariant ring.Valid() && ring.buffer == old(ring.buffer) && ring.max == old(ring.max)
      invariant View(ring.Contents(), out) == Calls(ring.max, start, ops[..i])
    {
      assert ops[..i + 1][..i] == ops[..i];
      out := Perform(ring, ops[i], out);
      i := i + 1;
    }
    assert ops[..|ops|] == ops;
  }

  /** With as much room as is ever written, the ring is an ordinary first-in first-out queue. */
  lemma {:induction false} NothingLostWithRoom(cap: nat, ops: seq<Op>)
    requires |Written(ops)| <= cap
    ensures var v := Calls(cap, View([], []), ops); v.out + v.contents == Written(ops)
  {
    if ops != [] {
      var before, op := ops[..|ops| - 1], ops[|ops| - 1];
      NothingLostWithRoom(cap, before);
      var v := Calls(cap, View([], []), before);
      match op {
        case Push(b) =>
        case CopyFrom(chunk) =>
        case Pop =>
          if v.contents != [] {
            assert v.contents == v.contents[..1] + v.contents[1..];
          }
        case CopyTo(size) =>
          var i := if size < |v.contents| then size else |v.contents|;
          assert v.contents == v.contents[..i] + v.contents[i..];
      }
    }
  }
}
