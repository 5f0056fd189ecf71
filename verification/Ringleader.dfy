/** The receive ring of lib/source_ringleader.c: a power-of-two ring with one empty slot, filled by
    completion callbacks that push the tail forward when they overrun it.

    Head and tail are the remainders of two absolute positions: the number of bytes ever stored into
    `ready`, and the position of the oldest byte still readable. The source's `& (READY_SIZE - 1)` is
    `% READY_SIZE` here. */
module Ringleader {
  import opened Common
  import opened LossyQueue

  const MAX_PACKET := 512
  const READY_SIZE := 8192

  ghost predicate WellFormed(q: Queue<byte>) {
    Sound(q) && |Contents(q)| < READY_SIZE
  }

  function Head(q: Queue<byte>): nat {
    |q.written| % READY_SIZE
  }

  function Tail(q: Queue<byte>): nat {
    q.rd % READY_SIZE
  }

  /** The new read position once a round stored `k` bytes that do not run past the end of `ready`. */
  function ReadAfter(q: Queue<byte>, k: nat): nat
    requires q.rd <= |q.written|
  {
    if |Contents(q)| + k < READY_SIZE then q.rd                       // room: the tail stays
    else if Head(q) < Tail(q) && Head(q) + k == READY_SIZE then q.rd + READY_SIZE // the missed case: a lap
    else |q.written| + k + 1 - READY_SIZE                            // the tail is pushed past the head
  }

  function StoreRound(q: Queue<byte>, src: seq<byte>): Queue<byte>
    requires q.rd <= |q.written|
  {
    Queue(q.written + src, ReadAfter(q, |src|), q.taken)
  }

  /** A received packet: one round, or two when it reaches past the end of `ready`. The second round
      copies from the start of the packet again. */
  function StorePacket(q: Queue<byte>, pkt: seq<byte>): Queue<byte>
    requires WellFormed(q) && 0 < |pkt| <= MAX_PACKET
  {
    var k := READY_SIZE - Head(q);
    if |pkt| <= k then StoreRound(q, pkt)
    else
      RoundSound(q, pkt[..k]);
      StoreRound(StoreRound(q, pkt[..k]), pkt[..|pkt| - k])
  }

  lemma RoundSound(q: Queue<byte>, src: seq<byte>)
    requires WellFormed(q) && 0 < |src| <= MAX_PACKET && Head(q) + |src| <= READY_SIZE
    ensures var q' := StoreRound(q, src);
            && WellFormed(q')
            && q.rd <= q'.rd
            && Head(q') == (Head(q) + |src|) % READY_SIZE
            && Delivered(q') == Delivered(q)
  {
  }

  lemma PacketSound(q: Queue<byte>, pkt: seq<byte>)
    requires WellFormed(q) && 0 < |pkt| <= MAX_PACKET
    ensures var q' := StorePacket(q, pkt);
            && WellFormed(q')
            && q.rd <= q'.rd
            && |q'.written| == |q.written| + |pkt|
            && q.written <= q'.written
            && Delivered(q') == Delivered(q)
  {
    var k := READY_SIZE - Head(q);
    if |pkt| <= k {
      RoundSound(q, pkt);
    } else {
      RoundSound(q, pkt[..k]);
      RoundSound(StoreRound(q, pkt[..k]), pkt[..|pkt| - k]);
    }
  }

  /** Nothing unread is dropped exactly when the packet fits beside the one empty slot. */
  lemma NothingDroppedIff(q: Queue<byte>, pkt: seq<byte>)
    requires WellFormed(q) && 0 < |pkt| <= MAX_PACKET
    ensures StorePacket(q, pkt).rd == q.rd <==> |Contents(q)| + |pkt| <= READY_SIZE - 1
  {
    var k := READY_SIZE - Head(q);
    if |pkt| > k {
      RoundSound(q, pkt[..k]);
    }
  }

  /** The packet reaches the end of `ready` while the head is behind the tail. */
  predicate Laps(q: Queue<byte>, n: nat) {
    Head(q) < Tail(q) && Head(q) + n >= READY_SIZE
  }

  /** The readable count from the two indices. */
  lemma Gap(w: nat, r: nat)
    requires r <= w < r + READY_SIZE
    ensures var head, tail := w % READY_SIZE, r % READY_SIZE;
            w - r == if head >= tail then head - tail else READY_SIZE + head - tail
  {
  }

  /** The readable count after one round, from the count and indices before it. */
  lemma CountAfterRound(q: Queue<byte>, k: nat)
    requires WellFormed(q) && 0 < k <= MAX_PACKET && Head(q) + k <= READY_SIZE
    ensures var n := |q.written| + k - ReadAfter(q, k);
            if Laps(q, k) then n == READY_SIZE - Tail(q)
            else n == |Contents(q)| + k - Overflow(READY_SIZE - 1, |Contents(q)|, k)
  {
    Gap(|q.written|, q.rd);
  }

  /** The ring keeps as much as it can hold exactly when the packet does not reach the end of `ready`
      while the head is behind the tail. In that case the overwrite test misses the overrun and the
      ring is left with less than the packet just received. */
  lemma {:induction false} RetainsIff(q: Queue<byte>, pkt: seq<byte>)
    requires WellFormed(q) && 0 < |pkt| <= MAX_PACKET
    ensures var q' := StorePacket(q, pkt);
            && WellFormed(q')
            && (|Contents(q')| == |Contents(q)| + |pkt| - Overflow(READY_SIZE - 1, |Contents(q)|, |pkt|)
                <==> !Laps(q, |pkt|))
            && (Laps(q, |pkt|) ==> |Contents(q')| == |pkt| - (Tail(q) - Head(q)) < |pkt|)
  {
    PacketSound(q, pkt);
    Gap(|q.written|, q.rd);
    var k := READY_SIZE - Head(q);
    if |pkt| <= k {
      CountAfterRound(q, |pkt|);
    } else {
      RoundSound(q, pkt[..k]);
      CountAfterRound(q, k);
      CountAfterRound(StoreRound(q, pkt[..k]), |pkt| - k);
    }
  }

  /** The stored bytes are the packet, whatever it holds, exactly when it does not reach past the end. */
  lemma AppendsExactlyIff(q: Queue<byte>, n: nat)
    requires WellFormed(q) && 0 < n <= MAX_PACKET
    ensures Head(q) + n <= READY_SIZE
            <==> (forall pkt: seq<byte> :: |pkt| == n ==> StorePacket(q, pkt).written == q.written + pkt)
  {
    var k := READY_SIZE - Head(q);
    if n > k {
      var pkt: seq<byte> := seq(n, i requires 0 <= i < n => if i == 0 then 0 else 1);
      var w := StorePacket(q, pkt).written;
      assert w[|q.written| + k] == pkt[0];
      assert (q.written + pkt)[|q.written| + k] == pkt[k];
    }
  }

  /** What a packet leaves in `ready` when `w` bytes were stored before it: its own bytes, but from the end of
      `ready` on its first bytes again. */
  function Placed(w: nat, pkt: seq<byte>): (p: seq<byte>)
    requires |pkt| <= MAX_PACKET
    ensures |p| == |pkt|
  {
    var k := READY_SIZE - w % READY_SIZE;
    seq(|pkt|, i requires 0 <= i < |pkt| => if i < k then pkt[i] else pkt[i - k])
  }

  lemma PacketBytes(q: Queue<byte>, pkt: seq<byte>)
    requires WellFormed(q) && 0 < |pkt| <= MAX_PACKET
    ensures StorePacket(q, pkt).written == q.written + Placed(|q.written|, pkt)
  {
    var k := READY_SIZE - Head(q);
    if |pkt| > k {
      assert Placed(|q.written|, pkt) == pkt[..k] + pkt[..|pkt| - k];
    } else {
      assert Placed(|q.written|, pkt) == pkt;
    }
  }

  // Whole runs.

  datatype Op = Recv(pkt: seq<byte>) | PollAndRead

  predicate Possible(op: Op) {
    op.Recv? ==> 0 < |op.pkt| <= MAX_PACKET
  }

  /** `PollAndRead` is one turn of the pipeline's inner loop: read_byte only after has_more said 1. */
  ghost function Apply(q: Queue<byte>, op: Op): (q': Queue<byte>)
    requires WellFormed(q) && Possible(op)
    ensures WellFormed(q')
  {
    match op
    case Recv(pkt) => PacketSound(q, pkt); StorePacket(q, pkt)
    case PollAndRead => if Contents(q) == [] then q else (TakeOldest(q); Take(q))
  }

  ghost function ApplyAll(ops: seq<Op>): (q: Queue<byte>)
    requires forall i :: 0 <= i < |ops| ==> Possible(ops[i])
    ensures WellFormed(q)
  {
    if ops == [] then Empty() else Apply(ApplyAll(ops[..|ops| - 1]), ops[|ops| - 1])
  }

  /** In every run the bytes handed over sit at strictly increasing positions of the stored stream,
      the readable ones are its latest, and none is counted twice. */
  lemma {:induction false} EveryRun(ops: seq<Op>)
    requires forall i :: 0 <= i < |ops| ==> Possible(ops[i])
    ensures var q := ApplyAll(ops);
            && IncreasingBelow(q.taken, q.rd)
            && Contents(q) == q.written[|q.written| - |Contents(q)|..]
            && |Contents(q)| <= READY_SIZE - 1
            && Lost(q) >= 0
            && |Delivered(q)| + Lost(q) + |Contents(q)| == |q.written|
  {
    Conservation(ApplyAll(ops));
  }

  /** What the packets of a run leave in `ready`, one after the other. */
  function PlacedBytes(ops: seq<Op>): seq<byte>
    requires forall i :: 0 <= i < |ops| ==> Possible(ops[i])
  {
    if ops == [] then [] else
    var before, op := PlacedBytes(ops[..|ops| - 1]), ops[|ops| - 1];
    assert Possible(op);
    if op.Recv? then before + Placed(|before|, op.pkt) else before
  }

  /** In every run the stored stream is that, so every byte handed over is a byte of the packets, with the
      start of a packet in place of what it had beyond the end of `ready`. */
  lemma {:induction false} RunStores(ops: seq<Op>)
    requires forall i :: 0 <= i < |ops| ==> Possible(ops[i])
    ensures ApplyAll(ops).written == PlacedBytes(ops)
  {
    if ops != [] {
      var before, op := ops[..|ops| - 1], ops[|ops| - 1];
      RunStores(before);
      if op.Recv? {
        PacketBytes(ApplyAll(before), op.pkt);
      }
    }
  }

  ghost function Received(ops: seq<Op>): seq<byte> {
    if ops == [] then [] else
    Received(ops[..|ops| - 1]) + (if ops[|ops| - 1].Recv? then ops[|ops| - 1].pkt else [])
  }

  /** Every packet arrives with room and short of the end of `ready`. */
  ghost predicate Roomy(ops: seq<Op>)
    requires forall i :: 0 <= i < |ops| ==> Possible(ops[i])
  {
    ops == [] ||
    var q, op := ApplyAll(ops[..|ops| - 1]), ops[|ops| - 1];
    && Roomy(ops[..|ops| - 1])
    && (op.Recv? ==> |Contents(q)| + |op.pkt| <= READY_SIZE - 1 && Head(q) + |op.pkt| <= READY_SIZE)
  }

  lemma RoomyStep(q: Queue<byte>, op: Op)
    requires WellFormed(q) && Possible(op)
    requires op.Recv? ==> |Contents(q)| + |op.pkt| <= READY_SIZE - 1 && Head(q) + |op.pkt| <= READY_SIZE
    ensures var q' := Apply(q, op);
            && Lost(q') == Lost(q)
            && Delivered(q') + Contents(q') == Delivered(q) + Contents(q) + (if op.Recv? then op.pkt else [])
  {
    if op.Recv? {
      RoomyPacket(q, op.pkt);
    } else if Contents(q) != [] {
      TakeOldest(q);
      assert Contents(q) == [Contents(q)[0]] + Contents(q)[1..];
    }
  }

  lemma RoomyPacket(q: Queue<byte>, pkt: seq<byte>)
    requires WellFormed(q) && 0 < |pkt| <= MAX_PACKET
    requires |Contents(q)| + |pkt| <= READY_SIZE - 1 && Head(q) + |pkt| <= READY_SIZE
    ensures StorePacket(q, pkt) == Queue(q.written + pkt, q.rd, q.taken)
    ensures WellFormed(StorePacket(q, pkt))
    ensures Delivered(StorePacket(q, pkt)) == Delivered(q)
    ensures Contents(StorePacket(q, pkt)) == Contents(q) + pkt
  {
    PacketSound(q, pkt);
  }

  /** Then the ring is an exact first-in first-out queue of the packets' bytes. */
  lemma {:induction false} RoomyRunIsExact(ops: seq<Op>)
    requires forall i :: 0 <= i < |ops| ==> Possible(ops[i])
    requires Roomy(ops)
    ensures var q := ApplyAll(ops);
            Delivered(q) + Contents(q) == Received(ops) && Lost(q) == 0
  {
    if ops == [] {
      assert Delivered(Empty<byte>()) == [];
    } else {
      var before, op := ops[..|ops| - 1], ops[|ops| - 1];
      RoomyRunIsExact(before);
      RoomyStep(ApplyAll(before), op);
    }
  }

  // A run that laps.

  function Times(n: nat, op: Op): seq<Op> {
    seq(n, _ => op)
  }

  function Zeros(n: nat): seq<byte> {
    seq(n, _ => 0)
  }

  function Packets(n: nat, size: nat): seq<Op> {
    Times(n, Recv(Zeros(size)))
  }

  ghost predicate AllPossible(ops: seq<Op>) {
    forall i :: 0 <= i < |ops| ==> Possible(ops[i])
  }

  /** The operations store `w` bytes and leave the oldest readable one at `r`. */
  ghost predicate Reaches(ops: seq<Op>, w: nat, r: nat) {
    AllPossible(ops) && |ApplyAll(ops).written| == w && ApplyAll(ops).rd == r
  }

  lemma ApplyLast(ops: seq<Op>, op: Op)
    requires AllPossible(ops) && Possible(op)
    ensures AllPossible(ops + [op]) && ApplyAll(ops + [op]) == Apply(ApplyAll(ops), op)
  {
    assert (ops + [op])[..|ops|] == ops;
  }

  lemma RecvOne(ops: seq<Op>, size: nat, w: nat, r: nat)
    requires Reaches(ops, w, r) && 0 < size <= MAX_PACKET && w - r + size <= READY_SIZE - 1
    ensures Reaches(ops + [Recv(Zeros(size))], w + size, r)
  {
    ApplyLast(ops, Recv(Zeros(size)));
    NothingDroppedIff(ApplyAll(ops), Zeros(size));
    PacketSound(ApplyAll(ops), Zeros(size));
  }

  lemma ReadOne(ops: seq<Op>, w: nat, r: nat)
    requires Reaches(ops, w, r) && r < w
    ensures Reaches(ops + [PollAndRead], w, r + 1)
  {
    ApplyLast(ops, PollAndRead);
  }

  lemma {:induction false} RecvMany(ops: seq<Op>, n: nat, size: nat, w: nat, r: nat)
    requires Reaches(ops, w, r) && 0 < size <= MAX_PACKET && w - r + n * size <= READY_SIZE - 1
    ensures Reaches(ops + Packets(n, size), w + n * size, r)
  {
    if n == 0 {
      assert ops + Packets(0, size) == ops;
    } else {
      assert n * size == (n - 1) * size + size;
      RecvMany(ops, n - 1, size, w, r);
      RecvOne(ops + Packets(n - 1, size), size, w + (n - 1) * size, r);
      assert ops + Packets(n, size) == ops + Packets(n - 1, size) + [Recv(Zeros(size))];
    }
  }

  lemma {:induction false} ReadMany(ops: seq<Op>, n: nat, w: nat, r: nat)
    requires Reaches(ops, w, r) && r + n <= w
    ensures Reaches(ops + Times(n, PollAndRead), w, r + n)
  {
    if n == 0 {
      assert ops + Times(0, PollAndRead) == ops;
    } else {
      ReadMany(ops, n - 1, w, r);
      ReadOne(ops + Times(n - 1, PollAndRead), w, r + n - 1);
      assert ops + Times(n, PollAndRead) == ops + Times(n - 1, PollAndRead) + [PollAndRead];
    }
  }

  /** 7700 bytes in and out: the ring is empty, and its next byte goes 492 before the end. */
  function InAndOut(): seq<Op> {
    Packets(15, 512) + [Recv(Zeros(20))] + Times(7700, PollAndRead)
  }

  /** Then 8182 bytes: the head is ten bytes behind the tail. */
  function LapRun(): seq<Op> {
    InAndOut() + [Recv(Zeros(492))] + Packets(15, 512) + [Recv(Zeros(10))]
  }

  lemma InAndOutReaches()
    ensures Reaches(InAndOut(), 7700, 7700)
  {
    assert [] + Packets(15, 512) == Packets(15, 512);
    RecvMany([], 15, 512, 0, 0);
    RecvOne(Packets(15, 512), 20, 7680, 0);
    ReadMany(Packets(15, 512) + [Recv(Zeros(20))], 7700, 7700, 0);
  }

  lemma LapRunReaches()
    ensures Reaches(LapRun(), 15882, 7700)
  {
    var ops := InAndOut();
    InAndOutReaches();
    RecvOne(ops, 492, 7700, 7700);
    RecvMany(ops + [Recv(Zeros(492))], 15, 512, 8192, 7700);
    RecvOne(ops + [Recv(Zeros(492))] + Packets(15, 512), 10, 15872, 7700);
  }

  /** A run in which the overwrite test misses the overrun: 8182 bytes are unread, and a full packet
      leaves only 502 readable, fewer than it brought. */
  lemma LapLosesTheNewPacket(pkt: seq<byte>)
    requires |pkt| == MAX_PACKET
    ensures AllPossible(LapRun()) && AllPossible(LapRun() + [Recv(pkt)])
    ensures |Contents(ApplyAll(LapRun()))| == 8182
    ensures |Contents(ApplyAll(LapRun() + [Recv(pkt)]))| == 502
  {
    LapRunReaches();
    var q := ApplyAll(LapRun());
    assert Head(q) == 7690 && Tail(q) == 7700;
    ApplyLast(LapRun(), Recv(pkt));
    RetainsIff(q, pkt);
  }

  // The ring in memory.

  /** The copy loop: each round takes what fits before the end of `ready`, always from the start of
      the packet. */
  function CopyRounds(q: Queue<byte>, packet: seq<byte>, length: nat): Queue<byte>
    requires WellFormed(q) && length <= |packet| <= MAX_PACKET
    decreases length
  {
    if length == 0 then q else
    var k := if length < READY_SIZE - Head(q) then length else READY_SIZE - Head(q);
    RoundSound(q, packet[..k]);
    CopyRounds(StoreRound(q, packet[..k]), packet, length - k)
  }

  /** For a packet of at most 512 bytes the loop takes at most two rounds. */
  lemma TwoRounds(q: Queue<byte>, packet: seq<byte>, length: nat)
    requires WellFormed(q) && 0 < length <= |packet| <= MAX_PACKET
    ensures CopyRounds(q, packet, length) == StorePacket(q, packet[..length])
  {
    var k := READY_SIZE - Head(q);
    if length <= k {
      OneRound(q, packet, length);
    } else {
      SecondRound(q, packet, length, k);
      assert packet[..length][..k] == packet[..k];
      assert packet[..length][..length - k] == packet[..length - k];
    }
  }

  lemma SecondRound(q: Queue<byte>, packet: seq<byte>, length: nat, k: nat)
    requires WellFormed(q) && 0 < length <= |packet| <= MAX_PACKET && k == READY_SIZE - Head(q) < length
    ensures WellFormed(StoreRound(q, packet[..k]))
    ensures CopyRounds(q, packet, length) == StoreRound(StoreRound(q, packet[..k]), packet[..length - k])
  {
    RoundSound(q, packet[..k]);
    OneRound(StoreRound(q, packet[..k]), packet, length - k);
  }

  lemma OneRound(q: Queue<byte>, packet: seq<byte>, length: nat)
    requires WellFormed(q) && 0 < length <= |packet| <= MAX_PACKET && Head(q) + length <= READY_SIZE
    ensures CopyRounds(q, packet, length) == StoreRound(q, packet[..length])
  {
    RoundSound(q, packet[..length]);
    assert CopyRounds(StoreRound(q, packet[..length]), packet, 0) == StoreRound(q, packet[..length]);
  }

  /** Every readable byte of `q` is in its slot. */
  ghost predicate Holds(ready: seq<byte>, q: Queue<byte>)
    requires |ready| == READY_SIZE
  {
    forall i :: q.rd <= i < |q.written| ==> ready[i % READY_SIZE] == q.written[i]
  }

  /** memcpy of `src` to `ready + at`. */
  function Blit(ready: seq<byte>, at: nat, src: seq<byte>): seq<byte>
    requires at + |src| <= |ready|
  {
    ready[..at] + src + ready[at + |src|..]
  }

  /** The overwrite test and the new tail, as the source computes them from the indices. */
  function PushedTail(head: nat, tail: nat, new_head: nat): nat {
    if (head < tail && new_head >= tail) || (new_head >= tail && new_head < head)
    then (new_head + 1) % READY_SIZE else tail
  }

  lemma PushedIndex(w: nat, k: nat)
    requires READY_SIZE <= w + k + 1
    ensures (w + k + 1 - READY_SIZE) % READY_SIZE == ((w % READY_SIZE + k) % READY_SIZE + 1) % READY_SIZE
  {
  }

  /** The same on the two absolute positions alone. */
  lemma PushedTailIs(w: nat, r: nat, k: nat)
    requires r <= w < r + READY_SIZE && 0 < k <= MAX_PACKET && w % READY_SIZE + k <= READY_SIZE
    ensures var head, tail := w % READY_SIZE, r % READY_SIZE;
            var r' := if w - r + k < READY_SIZE then r
                      else if head < tail && head + k == READY_SIZE then r + READY_SIZE
                      else w + k + 1 - READY_SIZE;
            r' % READY_SIZE == PushedTail(head, tail, (head + k) % READY_SIZE)
  {
    Gap(w, r);
    if w - r + k >= READY_SIZE {
      PushedIndex(w, k);
    }
  }

  lemma TailAfterRound(q: Queue<byte>, src: seq<byte>)
    requires WellFormed(q) && 0 < |src| <= MAX_PACKET && Head(q) + |src| <= READY_SIZE
    ensures Tail(StoreRound(q, src)) == PushedTail(Head(q), Tail(q), (Head(q) + |src|) % READY_SIZE)
  {
    assert |Contents(q)| == |q.written| - q.rd;
    PushedTailIs(|q.written|, q.rd, |src|);
  }

  /** Where position `i` lies when `k` bytes are written from position `w`, without crossing the end. */
  lemma SlotAfterRound(w: nat, k: nat, i: nat)
    requires w % READY_SIZE + k <= READY_SIZE && w + k - READY_SIZE <= i < w + k
    ensures i >= w ==> i % READY_SIZE == w % READY_SIZE + (i - w)
    ensures i < w ==> i % READY_SIZE < w % READY_SIZE || i % READY_SIZE >= w % READY_SIZE + k
  {
  }

  lemma HoldsAfterRound(ready: seq<byte>, q: Queue<byte>, src: seq<byte>)
    requires |ready| == READY_SIZE && WellFormed(q) && Holds(ready, q)
    requires 0 < |src| <= MAX_PACKET && Head(q) + |src| <= READY_SIZE
    ensures Holds(Blit(ready, Head(q), src), StoreRound(q, src))
  {
    var q' := StoreRound(q, src);
    RoundSound(q, src);
    assert |q'.written| - q'.rd < READY_SIZE;
    forall i | q'.rd <= i < |q'.written|
      ensures Blit(ready, Head(q), src)[i % READY_SIZE] == q'.written[i]
    {
      SlotAfterRound(|q.written|, |src|, i);
    }
  }

  method Memcpy(dst: array<byte>, at: nat, src: array<byte>, n: nat)
    requires at + n <= dst.Length && n <= src.Length && dst != src
    modifies dst
    ensures dst[..] == Blit(old(dst[..]), at, src[..n])
  {
    forall i | 0 <= i < n {
      dst[at + i] := src[i];
    }
  }

  class MavlinkRl {
    const ready: array<byte>
    const packet: array<byte>  // the arena packet whose completion is being handled
    var ready_head: nat
    var ready_tail: nat
    ghost var stream: Queue<byte>

    ghost predicate Valid()
      reads this, ready
    {
      && ready.Length == READY_SIZE
      && packet.Length == MAX_PACKET
      && ready != packet
      && WellFormed(stream)
      && ready_head == Head(stream)
      && ready_tail == Tail(stream)
      && Holds(ready[..], stream)
    }

    constructor ()
      ensures Valid() && stream == Empty() && fresh(ready) && fresh(packet)
    {
      ready := new byte[READY_SIZE];
      packet := new byte[MAX_PACKET];
      ready_head, ready_tail, stream := 0, 0, Empty();
    }

    method HasMore() returns (more: bool)
      requires Valid()
      ensures more <==> Contents(stream) != []
    {
      more := ready_head != ready_tail;
    }

    /** After has_more returned 1 this takes the oldest byte. On an empty ring, which nothing here checks,
        it returns whatever the slot holds and leaves a tail that claims 8191 readable bytes. */
    method ReadByte() returns (b: byte)
      requires Valid()
      modifies this`ready_tail, this`stream
      ensures ready_tail == (old(ready_tail) + 1) % READY_SIZE && b == ready[old(ready_tail)]
      ensures old(Contents(stream)) != [] ==>
                Valid() && stream == Take(old(stream)) && b == old(Contents(stream))[0]
      ensures old(Contents(stream)) == [] ==>
                && stream == old(stream) && ready_tail == (ready_head + 1) % READY_SIZE
                && (ready_head - ready_tail) % READY_SIZE == READY_SIZE - 1
    {
      ghost var empty := Contents(stream) == [];
      b := ready[ready_tail];
      ready_tail := (ready_tail + 1) % READY_SIZE;
      if !empty {
        TakeOldest(stream);
        stream := Take(stream);
      }
    }

    /** One turn of the copy loop over the first `to_copy` bytes of the packet. */
    method CopyRound(to_copy: nat)
      requires Valid() && 0 < to_copy <= MAX_PACKET && ready_head + to_copy <= READY_SIZE
      modifies this, ready
      ensures Valid() && stream == StoreRound(old(stream), packet[..to_copy])
    {
      ghost var q, src := stream, packet[..to_copy];
      RoundSound(q, src);
      HoldsAfterRound(ready[..], q, src);
      TailAfterRound(q, src);
      var new_head := (ready_head + to_copy) % READY_SIZE;
      Memcpy(ready, ready_head, packet, to_copy);
      if (ready_head < ready_tail && new_head >= ready_tail) || (new_head >= ready_tail && new_head < ready_head) {
        ready_tail := (new_head + 1) % READY_SIZE;
      }
      ready_head := new_head;
      stream := StoreRound(q, src);
    }

    /** The completion of a receive: `res` bytes of `packet`, or an error code. */
    method RecvCallback(res: int)
      requires Valid() && res <= MAX_PACKET
      modifies this, ready
      ensures Valid()
      ensures res <= 0 ==> stream == old(stream)
      ensures res > 0 ==> stream == StorePacket(old(stream), packet[..res])
    {
      if res > 0 {
        var length := res;
        while length > 0
          invariant Valid() && 0 <= length <= MAX_PACKET
          invariant CopyRounds(stream, packet[..], length) == CopyRounds(old(stream), packet[..], res)
        {
          var to_copy := if length < READY_SIZE - ready_head then length else READY_SIZE - ready_head;
          assert packet[..][..to_copy] == packet[..to_copy];
          CopyRound(to_copy);
          length := length - to_copy;
        }
        TwoRounds(old(stream), packet[..], res);
        assert packet[..][..res] == packet[..res];
      }
    }
  }
}
