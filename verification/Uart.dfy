/** The UART source of lib/source_uart.c: a server thread copies device bytes into the byte ring and
    waits when it is full; the pipeline thread peeks and pops.

    The server reads into `uart_input`, which is one array at file scope: the servers of all UARTs read
    into it, outside any lock, and each copies from it under the lock of its own connection. This module is
    one UART; what the read of another one stores in the array is the step OtherRead. Module UartShared
    puts any number of them together. A store of another read before this read has stored its own byte
    leaves no trace, and one that falls inside the copy comes, for its slot, before the copy or too late.

    Every access to the ring by `uart_server`, `uart_has_more` and `uart_read_byte` is inside the
    lock, so each critical section is one step here; `cnd_wait` ends a step and may return for no
    reason. The one unlocked access is the sink's: `uart_route_to` serialises into `output_buffer`,
    which is also the ring's storage, so each byte it stores is a step of its own. A store that falls
    inside a copy is covered too: a chunk is shorter than the ring, so the copy writes each slot at most
    once, and the store can be moved before the whole copy or after it (RingBuffer.StoreInsideCopy);
    a pop touches one slot, and the pops are by the thread that runs the sink. */
module Uart {
  import opened Common
  import opened LossyQueue
  import opened RingBuffer

  const CAPACITY := 4096
  const READ_SIZE := 256

  /** Got: the input array holds `chunk` in its first bytes, and the device had sent `sent`. */
  datatype ServerPc = Reading | Got(chunk: seq<byte>, sent: seq<byte>) | Waiting | Woken | Stopped
  datatype ConsumerPc = Idle | Primed  // Primed: has_more returned true, read_byte comes next

  /** `ring` and `tail` are the readable bytes and the slot of the oldest; `out` is what read_byte
      returned from the ring and `fillers` how often it returned its filler 0 instead. `stream`
      tracks absolute positions in what the device sent for the copies so far, `chunks` how many there were. */
  datatype State = State(ring: seq<byte>, tail: nat, server: ServerPc, consumer: ConsumerPc,
                         out: seq<byte>, fillers: nat, stream: Queue<byte>, chunks: nat)

  datatype Step =
    | DeviceRead(chunk: seq<byte>)
    | Leave
    | Copy
    | Wake
    | Retest
    | HasMore
    | ReadByte
    | SinkByte(slot: nat, b: byte)
    | OtherRead(slot: nat, b: byte)  // the read() of another UART stores into the input array

  predicate Enabled(s: State, step: Step) {
    match step
    case DeviceRead(chunk) => s.server == Reading && 0 < |chunk| <= READ_SIZE
    case Leave => s.server == Reading
    case Copy => s.server.Got?
    case Wake => s.server == Waiting
    case Retest => s.server == Woken
    case HasMore => s.consumer == Idle
    case ReadByte => s.consumer == Primed
    case SinkByte(slot, _) => s.consumer == Idle && slot < CAPACITY
    case OtherRead(slot, _) => slot < READ_SIZE
  }

  /** How far behind the tail a storage slot lies. */
  function Age(tail: nat, slot: nat): nat
    requires tail < CAPACITY && slot < CAPACITY
  {
    if slot >= tail then slot - tail else slot + CAPACITY - tail
  }

  function Next(s: State, step: Step): State
    requires Enabled(s, step) && s.tail < CAPACITY && |s.ring| <= CAPACITY
    requires s.stream.rd <= |s.stream.written|
  {
    match step
    case DeviceRead(chunk) => s.(server := Got(chunk, chunk))
    case Leave => s.(server := Stopped)
    case Copy =>
      var chunk := s.server.chunk;
      var ring := KeepLast(CAPACITY, s.ring + chunk);
      var drop := Overflow(CAPACITY, |s.ring|, |chunk|);
      s.(ring := ring, tail := (s.tail + drop) % CAPACITY, stream := Store(s.stream, s.server.sent, drop),
         chunks := s.chunks + 1, server := if |ring| == CAPACITY then Waiting else Reading)
    case Wake => s.(server := Woken)
    case Retest => s.(server := if |s.ring| == CAPACITY then Waiting else Reading)
    case HasMore => if s.ring == [] then s else s.(consumer := Primed)
    case ReadByte =>
      var s' := s.(consumer := Idle, server := if s.server == Waiting then Woken else s.server);
      if s.ring == [] then s'.(fillers := s.fillers + 1) else
      s'.(ring := s.ring[1..], tail := (s.tail + 1) % CAPACITY, out := s.out + [s.ring[0]], stream := Take(s.stream))
    case SinkByte(slot, b) =>
      var i := Age(s.tail, slot);
      if i < |s.ring| then s.(ring := s.ring[i := b]) else s
    case OtherRead(slot, b) =>
      if s.server.Got? && slot < |s.server.chunk|
      then s.(server := Got(s.server.chunk[slot := b], s.server.sent)) else s
  }

  /** What every run keeps, with or without sink traffic. */
  ghost predicate Inv(s: State) {
    && Sound(s.stream)
    && |Contents(s.stream)| == |s.ring| <= CAPACITY
    && s.tail == s.stream.rd % CAPACITY
    && |s.out| == |s.stream.taken|
    && s.fillers == 0
    && Lost(s.stream) + s.chunks <= |s.stream.written|
    && (s.server.Got? ==> 0 < |s.server.chunk| == |s.server.sent| <= READ_SIZE)
    && (s.server == Reading || s.server.Got? || s.server == Stopped ==> |s.ring| < CAPACITY)
    && (s.server == Waiting ==> |s.ring| == CAPACITY)
    && (s.consumer == Primed ==> s.ring != [])
  }

  /** The ring, what was read from it and the input array hold what the device sent. */
  ghost predicate Intact(s: State)
    requires Sound(s.stream)
  {
    s.ring == Contents(s.stream) && s.out == Delivered(s.stream) && (s.server.Got? ==> s.server.chunk == s.server.sent)
  }

  /** The state uart_state_init leaves. */
  function Start(): (s: State)
    ensures Inv(s) && Intact(s)
  {
    assert Delivered(Empty<byte>()) == [];
    State([], 0, Reading, Idle, [], 0, Empty(), 0)
  }

  /** Is there a byte of this UART in the slot that the step stores into? */
  predicate Hits(s: State, step: Step) {
    match step
    case SinkByte(slot, _) => s.tail < CAPACITY && slot < CAPACITY && Age(s.tail, slot) < |s.ring|
    case OtherRead(slot, _) => s.server.Got? && slot < |s.server.chunk|
    case _ => false
  }

  /** The byte a hit replaces. */
  function Target(s: State, step: Step): byte
    requires Hits(s, step)
  {
    if step.SinkByte? then s.ring[Age(s.tail, step.slot)] else s.server.chunk[step.slot]
  }

  /** A store that misses the bytes of this UART, or stores what is there already. */
  predicate Harmless(s: State, step: Step) {
    Hits(s, step) ==> step.b == Target(s, step)
  }

  ghost predicate ValidRun(s: State, steps: seq<Step>)
    requires Inv(s)
    decreases |steps|
  {
    steps == [] || (Enabled(s, steps[0]) && (InvStep(s, steps[0]); ValidRun(Next(s, steps[0]), steps[1..])))
  }

  ghost function After(s: State, steps: seq<Step>): (s': State)
    requires Inv(s) && ValidRun(s, steps)
    ensures Inv(s')
    decreases |steps|
  {
    if steps == [] then s else (InvStep(s, steps[0]); After(Next(s, steps[0]), steps[1..]))
  }

  ghost predicate HarmlessRun(s: State, steps: seq<Step>)
    requires Inv(s) && ValidRun(s, steps)
    decreases |steps|
  {
    steps == [] || (Harmless(s, steps[0]) && (InvStep(s, steps[0]); HarmlessRun(Next(s, steps[0]), steps[1..])))
  }

  lemma InvStep(s: State, step: Step)
    requires Inv(s) && Enabled(s, step)
    ensures Inv(Next(s, step))
  {
    if step == Copy {
      InvCopy(s);
    } else if step == ReadByte {
      InvReadByte(s);
    }
  }

  lemma InvCopy(s: State)
    requires Inv(s) && Enabled(s, Copy)
    ensures Inv(Next(s, Copy))
  {
    var drop := Overflow(CAPACITY, |s.ring|, |s.server.chunk|);
    StoreSound(s.stream, s.server.sent, drop);
    TailMoves(s.stream.rd, drop);
  }

  lemma InvReadByte(s: State)
    requires Inv(s) && Enabled(s, ReadByte)
    ensures Inv(Next(s, ReadByte))
  {
    TakeOldest(s.stream);
    TailMoves(s.stream.rd, 1);
  }

  lemma TailMoves(rd: nat, drop: nat)
    ensures (rd % CAPACITY + drop) % CAPACITY == (rd + drop) % CAPACITY
  {
  }

  /** A copy loses at most n - 1 of the unread bytes, all of them the oldest, and keeps the new
      chunk whole. */
  lemma CopyLoss(s: State)
    requires Inv(s) && s.server.Got?
    ensures var s', n := Next(s, Copy), |s.server.chunk|;
            && Lost(s'.stream) - Lost(s.stream) == Overflow(CAPACITY, |s.ring|, n) <= n - 1
            && n <= |s'.ring| && s'.ring[|s'.ring| - n..] == s.server.chunk
            && s'.ring == (s.ring + s.server.chunk)[Overflow(CAPACITY, |s.ring|, n)..]
  {
  }

  /** A copy loses nothing exactly when the chunk fits. */
  lemma CopyLosesNothingIff(s: State)
    requires Inv(s) && s.server.Got?
    ensures Lost(Next(s, Copy).stream) == Lost(s.stream) <==> |s.ring| + |s.server.chunk| <= CAPACITY
  {
    CopyLoss(s);
  }

  /** Device bytes one at a time, none read by the pipeline. */
  function FillSteps(n: nat): seq<Step> {
    if n == 0 then [] else FillSteps(n - 1) + [DeviceRead([0]), Copy]
  }

  lemma {:induction false} Concat(s: State, xs: seq<Step>, ys: seq<Step>)
    requires Inv(s) && ValidRun(s, xs)
    ensures ValidRun(s, xs + ys) <==> ValidRun(After(s, xs), ys)
    ensures ValidRun(s, xs + ys) ==> After(s, xs + ys) == After(After(s, xs), ys)
    decreases |xs|
  {
    if xs == [] {
      assert xs + ys == ys;
    } else {
      InvStep(s, xs[0]);
      Concat(Next(s, xs[0]), xs[1..], ys);
      assert (xs + ys)[1..] == xs[1..] + ys;
    }
  }

  /** One read of the device and its copy, from a ring with a free slot. */
  lemma ReadAndCopy(s: State, chunk: seq<byte>)
    requires Inv(s) && s.server == Reading && 0 < |chunk| <= READ_SIZE
    ensures ValidRun(s, [DeviceRead(chunk), Copy])
    ensures After(s, [DeviceRead(chunk), Copy]) == Next(s.(server := Got(chunk, chunk)), Copy)
  {
    var got := s.(server := Got(chunk, chunk));
    Then(got, Copy, []);
    Then(s, DeviceRead(chunk), [Copy]);
  }

  lemma {:induction false} FillReaches(n: nat)
    requires n < CAPACITY
    ensures ValidRun(Start(), FillSteps(n))
    ensures var s := After(Start(), FillSteps(n));
            s.server == Reading && |s.ring| == n && Lost(s.stream) == 0
  {
    if n > 0 {
      FillReaches(n - 1);
      var s := After(Start(), FillSteps(n - 1));
      ReadAndCopy(s, [0]);
      Concat(Start(), FillSteps(n - 1), [DeviceRead([0]), Copy]);
    }
  }

  /** Waiting on a full ring does not keep every byte, because the wait comes after the copy: this run
      loses one. */
  lemma BytesCanBeLost()
    ensures var steps := FillSteps(CAPACITY - 1) + [DeviceRead([1, 2]), Copy];
            ValidRun(Start(), steps) && Lost(After(Start(), steps).stream) == 1
  {
    FillReaches(CAPACITY - 1);
    var s := After(Start(), FillSteps(CAPACITY - 1));
    ReadAndCopy(s, [1, 2]);
    CopyLoss(s.(server := Got([1, 2], [1, 2])));
    Concat(Start(), FillSteps(CAPACITY - 1), [DeviceRead([1, 2]), Copy]);
  }

  /** From intact bytes a step leads to intact bytes exactly when it is harmless. */
  lemma IntactStep(s: State, step: Step)
    requires Inv(s) && Enabled(s, step) && Intact(s)
    ensures Inv(Next(s, step))
    ensures Intact(Next(s, step)) <==> Harmless(s, step)
  {
    InvStep(s, step);
    if step == Copy {
      StoreKeepsLast(s.stream, s.server.sent, CAPACITY);
    } else if step == ReadByte {
      TakeOldest(s.stream);
    } else if step.SinkByte? && Hits(s, step) {
      assert Next(s, step).ring[Age(s.tail, step.slot)] == step.b;
    } else if step.OtherRead? && Hits(s, step) {
      assert Next(s, step).server.chunk[step.slot] == step.b;
    }
  }

  lemma {:induction false} IntactRun(s: State, steps: seq<Step>)
    requires Inv(s) && ValidRun(s, steps) && Intact(s) && HarmlessRun(s, steps)
    ensures Intact(After(s, steps))
    decreases |steps|
  {
    if steps != [] {
      InvStep(s, steps[0]);
      IntactStep(s, steps[0]);
      IntactRun(Next(s, steps[0]), steps[1..]);
    }
  }

  /** Counts in every interleaving, whatever the sink writes: read_byte never hands over its filler,
      what was returned, lost and still unread adds up to what was copied in, and each chunk cost at
      most its length less one. */
  lemma EveryRun(steps: seq<Step>)
    requires ValidRun(Start(), steps)
    ensures var s := After(Start(), steps);
            && s.fillers == 0
            && |s.out| + Lost(s.stream) + |s.ring| == |s.stream.written|
            && 0 <= Lost(s.stream) <= |s.stream.written| - s.chunks
            && |s.ring| <= CAPACITY
            && (s.server.Got? ==> |s.ring| < CAPACITY)
  {
    Conservation(After(Start(), steps).stream);
  }

  /** In every interleaving whose sink bytes and other reads are harmless, the bytes handed over are the
      device's bytes at strictly increasing positions, and the unread ones are its latest. */
  lemma EveryHarmlessRun(steps: seq<Step>)
    requires ValidRun(Start(), steps) && HarmlessRun(Start(), steps)
    ensures var s := After(Start(), steps);
            && IncreasingBelow(s.stream.taken, |s.stream.written|)
            && |s.out| == |s.stream.taken|
            && (forall k :: 0 <= k < |s.out| ==> s.out[k] == s.stream.written[s.stream.taken[k]])
            && s.ring == s.stream.written[|s.stream.written| - |s.ring|..]
  {
    IntactRun(Start(), steps);
  }

  /** What the device sent, from the reads of the run alone. */
  function FromDevice(steps: seq<Step>): seq<byte> {
    if steps == [] then [] else (if steps[0].DeviceRead? then steps[0].chunk else []) + FromDevice(steps[1..])
  }

  /** What was read and not yet copied. */
  function Pending(s: State): seq<byte> {
    if s.server.Got? then s.server.sent else []
  }

  /** In every interleaving the stream is what the device sent, read by read: each read is copied exactly once,
      and the one that waits for its copy comes next. */
  lemma StreamIsFromDevice(steps: seq<Step>)
    requires ValidRun(Start(), steps)
    ensures var s := After(Start(), steps); s.stream.written + Pending(s) == FromDevice(steps)
  {
    StreamGrows(Start(), steps);
    assert [] + FromDevice(steps) == FromDevice(steps);
  }

  lemma {:induction false} StreamGrows(s: State, steps: seq<Step>)
    requires Inv(s) && ValidRun(s, steps)
    ensures var t := After(s, steps);
            t.stream.written + Pending(t) == s.stream.written + Pending(s) + FromDevice(steps)
    decreases |steps|
  {
    if steps == [] {
      assert s.stream.written + Pending(s) + [] == s.stream.written + Pending(s);
    } else {
      var s' := Next(s, steps[0]);
      InvStep(s, steps[0]);
      StepGrows(s, steps[0]);
      StreamGrows(s', steps[1..]);
      Associates(s.stream.written + Pending(s), if steps[0].DeviceRead? then steps[0].chunk else [],
                 FromDevice(steps[1..]));
    }
  }

  lemma StepGrows(s: State, step: Step)
    requires Inv(s) && Enabled(s, step)
    ensures var t := Next(s, step);
            t.stream.written + Pending(t)
            == s.stream.written + Pending(s) + (if step.DeviceRead? then step.chunk else [])
  {
    var before := s.stream.written + Pending(s);
    assert before + [] == before && s.stream.written + [] == s.stream.written;
  }

  lemma Associates(a: seq<byte>, b: seq<byte>, c: seq<byte>)
    ensures a + b + c == a + (b + c)
  {
  }

  /** At its loop head the server may leave, and then copies nothing more in any run. */
  lemma LeaveIsFinal(s: State, steps: seq<Step>)
    requires Inv(s) && s.server == Reading
    ensures Enabled(s, Leave) && Inv(Next(s, Leave))
    ensures ValidRun(Next(s, Leave), steps) ==>
              var t := After(Next(s, Leave), steps); t.server == Stopped && t.stream.written == s.stream.written
  {
    if ValidRun(Next(s, Leave), steps) {
      StoppedStays(Next(s, Leave), steps);
    }
  }

  lemma {:induction false} StoppedStays(s: State, steps: seq<Step>)
    requires Inv(s) && s.server == Stopped && ValidRun(s, steps)
    ensures After(s, steps).server == Stopped && After(s, steps).stream.written == s.stream.written
    decreases |steps|
  {
    if steps != [] {
      InvStep(s, steps[0]);
      StoppedStays(Next(s, steps[0]), steps[1..]);
    }
  }

  /** The slots that matter are exactly those of unread bytes: a sink byte leaves the ring alone, whatever
      its value, exactly when its slot holds none. */
  lemma HarmlessIff(s: State, slot: nat)
    requires Inv(s) && s.consumer == Idle && slot < CAPACITY
    ensures !Hits(s, SinkByte(slot, 0)) <==> (forall b: byte :: Next(s, SinkByte(slot, b)).ring == s.ring)
  {
    var i := Age(s.tail, slot);
    if i < |s.ring| {
      var b := Other(s.ring[i]);
      assert Next(s, SinkByte(slot, b)).ring[i] != s.ring[i];
    }
  }

  /** And a store of another UART's read leaves this one alone exactly when its slot holds no byte that
      waits for the copy. */
  lemma OtherReadHarmlessIff(s: State, slot: nat)
    requires Inv(s) && slot < READ_SIZE
    ensures !Hits(s, OtherRead(slot, 0)) <==> (forall b: byte :: Next(s, OtherRead(slot, b)) == s)
  {
    if s.server.Got? && slot < |s.server.chunk| {
      var b := Other(s.server.chunk[slot]);
      assert Next(s, OtherRead(slot, b)).server.chunk[slot] != s.server.chunk[slot];
    }
  }

  /** Without the condition the claim is false: one device byte, one sink byte, and the reader is
      handed a byte the device never sent. */
  lemma SinkCanCorrupt()
    ensures var steps := [DeviceRead([7]), Copy, SinkByte(0, 9), HasMore, ReadByte];
            && ValidRun(Start(), steps)
            && After(Start(), steps).out == [9]
            && After(Start(), steps).stream.written == [7]
  {
    var sink, read := [SinkByte(0, 9), HasMore, ReadByte], [HasMore, ReadByte];
    ReadAndCopy(Start(), [7]);
    var s := After(Start(), [DeviceRead([7]), Copy]);
    assert s.ring == [7] && s.tail == 0 && s.out == [] && s.stream.written == [7];
    ReadsOnly(Next(s, SinkByte(0, 9)), 9);
    Then(s, SinkByte(0, 9), read);
    Concat(Start(), [DeviceRead([7]), Copy], sink);
    assert [SinkByte(0, 9)] + read == sink;
    assert [DeviceRead([7]), Copy] + sink == [DeviceRead([7]), Copy, SinkByte(0, 9), HasMore, ReadByte];
  }

  /** So it is with the input array: one device byte, one byte of another UART's read before the copy, and
      the reader is handed the other UART's byte. */
  lemma OtherReadCanCorrupt()
    ensures var steps := [DeviceRead([7]), OtherRead(0, 9), Copy, HasMore, ReadByte];
            && ValidRun(Start(), steps)
            && After(Start(), steps).out == [9]
            && After(Start(), steps).stream.written == [7]
  {
    var read := [HasMore, ReadByte];
    var got := Next(Start(), DeviceRead([7]));
    var hit := Next(got, OtherRead(0, 9));
    assert [7][0 := 9] == [9] && hit.server.chunk == [9];
    Then(hit, Copy, read);
    Then(got, OtherRead(0, 9), [Copy] + read);
    Then(Start(), DeviceRead([7]), [OtherRead(0, 9)] + ([Copy] + read));
    assert [] + [9] == [9];
    ReadsOnly(Next(hit, Copy), 9);
    assert [DeviceRead([7])] + ([OtherRead(0, 9)] + ([Copy] + read))
           == [DeviceRead([7]), OtherRead(0, 9), Copy, HasMore, ReadByte];
  }

  /** The pipeline takes the only unread byte. */
  lemma ReadsOnly(s: State, b: byte)
    requires s.ring == [b] && s.consumer == Idle && Inv(s)
    ensures ValidRun(s, [HasMore, ReadByte])
    ensures After(s, [HasMore, ReadByte]).out == s.out + [b]
    ensures After(s, [HasMore, ReadByte]).stream.written == s.stream.written
  {
    Then(s.(consumer := Primed), ReadByte, []);
    Then(s, HasMore, [ReadByte]);
  }

  lemma Then(s: State, step: Step, rest: seq<Step>)
    requires Inv(s) && Enabled(s, step)
    ensures Inv(Next(s, step))
    ensures ValidRun(s, [step] + rest) <==> ValidRun(Next(s, step), rest)
    ensures ValidRun(s, [step] + rest) ==> After(s, [step] + rest) == After(Next(s, step), rest)
  {
    InvStep(s, step);
    assert ([step] + rest)[1..] == rest;
  }

  /** Until a woken server tests the ring again, nothing fills it. */
  lemma {:induction false} RoomStays(s: State, steps: seq<Step>)
    requires Inv(s) && s.server == Woken && |s.ring| < CAPACITY && ValidRun(s, steps)
    requires forall k :: 0 <= k < |steps| ==> steps[k] != Retest
    ensures After(s, steps).server == Woken && |After(s, steps).ring| < CAPACITY
    decreases |steps|
  {
    if steps != [] {
      InvStep(s, steps[0]);
      RoomStays(Next(s, steps[0]), steps[1..]);
    }
  }

  /** No lost wakeup: a server inside cnd_wait has a full ring; the next pop wakes it, and whenever it then
      gets the lock, after any steps of the pipeline thread and the sink, it goes on to read the device. */
  lemma WaitEnds(s: State, between: seq<Step>)
    requires Inv(s) && s.server == Waiting && s.consumer == Primed
    requires ValidRun(s, [ReadByte] + between)
    requires forall k :: 0 <= k < |between| ==> between[k] != Retest
    ensures |s.ring| == 4096
    ensures var t := After(s, [ReadByte] + between);
            Enabled(t, Retest) && Next(t, Retest).server == Reading
  {
    assert ([ReadByte] + between)[1..] == between;
    InvStep(s, ReadByte);
    RoomStays(Next(s, ReadByte), between);
  }

  /** The poll is exact in every state, a full ring included: after uart_has_more the pipeline goes on to read a
      byte exactly when there is one, and nothing else has moved. */
  lemma HasMoreIsExact(s: State)
    requires Inv(s) && s.consumer == Idle
    ensures Enabled(s, HasMore)
    ensures Enabled(Next(s, HasMore), ReadByte) <==> s.ring != []
    ensures Next(s, HasMore).(consumer := Idle) == s
  {
  }

  /** So a server that waits is let go by the pipeline's next poll: the poll finds the oldest byte, its read
      signals, and the woken server goes on to the device. */
  lemma PollReleases(s: State)
    requires Inv(s) && s.server == Waiting && s.consumer == Idle
    ensures ValidRun(s, [HasMore, ReadByte, Retest])
    ensures var t := After(s, [HasMore, ReadByte, Retest]);
            && t.server == Reading && t.consumer == Idle && s.ring != []
            && t.out == s.out + [s.ring[0]] && t.ring == s.ring[1..]
            && (forall chunk: seq<byte> :: 0 < |chunk| <= 256 ==> Enabled(t, DeviceRead(chunk)))
  {
    HasMoreIsExact(s);
    var primed := Next(s, HasMore);
    InvStep(s, HasMore);
    InvStep(primed, ReadByte);
    var popped := Next(primed, ReadByte);
    Then(popped, Retest, []);
    Then(primed, ReadByte, [Retest]);
    Then(s, HasMore, [ReadByte, Retest]);
    assert [HasMore] + [ReadByte, Retest] == [HasMore, ReadByte, Retest];
    assert [ReadByte] + [Retest] == [ReadByte, Retest];
  }

  /** A spurious return from cnd_wait on a full ring changes nothing. */
  lemma SpuriousWakeIsIdle(s: State)
    requires Inv(s) && s.server == Waiting
    ensures Enabled(Next(s, Wake), Retest) && Next(Next(s, Wake), Retest) == s
  {
  }

  // The outgoing message, in the same storage.

  /** The slot the next byte is copied into. */
  function HeadOf(s: State): nat {
    (s.tail + |s.ring|) % CAPACITY
  }

  /** What a step makes of `output_buffer`. */
  function Storage(data: seq<byte>, s: State, step: Step): (data': seq<byte>)
    requires |data| == CAPACITY && Enabled(s, step) && (step == Copy ==> |s.server.chunk| <= CAPACITY)
    ensures |data'| == CAPACITY
  {
    match step
    case Copy => Written(data, HeadOf(s), s.server.chunk)
    case SinkByte(slot, b) => data[slot := b]
    case _ => data
  }

  ghost function StorageAfter(data: seq<byte>, s: State, steps: seq<Step>): (data': seq<byte>)
    requires |data| == CAPACITY && Inv(s) && ValidRun(s, steps)
    ensures |data'| == CAPACITY
    decreases |steps|
  {
    if steps == [] then data else
    (InvStep(s, steps[0]); StorageAfter(Storage(data, s, steps[0]), Next(s, steps[0]), steps[1..]))
  }

  /** Every copy of the run lands behind the first `len` slots, and the sink stores nothing. */
  ghost predicate Spares(s: State, steps: seq<Step>, len: nat)
    requires Inv(s) && ValidRun(s, steps)
    decreases |steps|
  {
    steps == [] || (
      && !steps[0].SinkByte?
      && (steps[0] == Copy ==> Clear(HeadOf(s), |s.server.chunk|, len, CAPACITY))
      && (InvStep(s, steps[0]); Spares(Next(s, steps[0]), steps[1..], len)))
  }

  /** Between the serialisation of a message of `len` bytes and its write() the server goes on: what is
      written is what was serialised if no copy lands in the first `len` slots meanwhile. */
  lemma {:induction false} OutgoingIsKept(data: seq<byte>, s: State, steps: seq<Step>, len: nat)
    requires |data| == CAPACITY && len <= CAPACITY && Inv(s) && ValidRun(s, steps) && Spares(s, steps, len)
    ensures StorageAfter(data, s, steps)[..len] == data[..len]
    decreases |steps|
  {
    if steps != [] {
      InvStep(s, steps[0]);
      if steps[0] == Copy {
        WrittenBehind(data, HeadOf(s), s.server.chunk, len);
      }
      OutgoingIsKept(Storage(data, s, steps[0]), Next(s, steps[0]), steps[1..], len);
    }
  }

  /** And only then: a copy of n bytes leaves the message alone, whatever it copies, exactly when it lands
      behind it. */
  lemma OutgoingIsKeptIff(data: seq<byte>, s: State, n: nat, len: nat)
    requires |data| == CAPACITY && len <= CAPACITY && Inv(s) && s.server == Reading && 0 < n <= READ_SIZE
    ensures Clear(HeadOf(s), n, len, CAPACITY)
            <==> (forall chunk: seq<byte> :: |chunk| == n ==>
                    Storage(data, s.(server := Got(chunk, chunk)), Copy)[..len] == data[..len])
  {
    WrittenBehindIff(data, HeadOf(s), n, len);
    forall chunk: seq<byte> | |chunk| == n
      ensures Storage(data, s.(server := Got(chunk, chunk)), Copy) == Written(data, HeadOf(s), chunk)
    {
    }
  }
}
