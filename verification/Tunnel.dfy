/** The bandwidth-limited tunnel of tools/tcp_bridge.cc: a receiver thread queues packets, a sender
    thread sends them, clears the queue when it has grown too long, and sleeps to hold a byte rate.

    Every access to the queue is inside the lock, so each critical section is one step; cnd_wait ends
    a step and may return for no reason. The clock is monotone, in nanoseconds, and advances by any
    amount between steps; usleep sleeps at least as long as it is asked to. */
module Tunnel {
  import opened Common
  import opened LossyQueue

  const MAX_PACKET := 1024
  const SECOND := 1_000_000_000

  type Packet = p: seq<byte> | 0 < |p| <= MAX_PACKET witness [0]

  datatype SenderPc =
    | Head
    | AtQueue                  // start time read, wants the lock
    | Waiting                  // inside cnd_wait
    | Sending(packet: Packet)  // popped, lock released
    | Checking(size: nat)      // sent; the overflow check comes next
    | Timing(size: nat)        // about to read the end time
    | Sleeping(until: nat)     // usleep does not return before this time
    | Stopped

  datatype ReceiverPc = Receiving | Got(packet: Packet)

  /** `stream` tracks the queue by absolute positions in arrival order, `sent` is what was given to
      the sink, `cleared` the arrival positions of what overflows threw away, `iterations` the
      completed sender turns. */
  datatype State = State(bandwidth: int, limit: int, now: nat, tstart: nat,
                         sender: SenderPc, receiver: ReceiverPc, stream: Queue<Packet>,
                         sent: seq<Packet>, cleared: seq<nat>, iterations: nat)

  datatype Step =
    | Tick(ns: nat)
    | Begin
    | Stop
    | Pop
    | Wake
    | Send
    | Check
    | Pace
    | SleepOver
    | Receive(packet: Packet)
    | Push

  // The sender's arithmetic, as written in the source.

  /** C division, which rounds toward zero. */
  function TruncDiv(a: int, b: nat): int
    requires b > 0
  {
    if a >= 0 then a / b else -((-a) / b)
  }

  /** The difference of two timespecs in microseconds. */
  function Elapsed(tstart: nat, tend: nat): int {
    (tend / SECOND - tstart / SECOND) * 1_000_000 + TruncDiv(tend % SECOND - tstart % SECOND, 1000)
  }

  function RateUs(size: nat, bandwidth: int): nat
    requires bandwidth > 0
  {
    size * 1_000_000 / bandwidth
  }

  /** A 64-bit signed value compared with an unsigned one. */
  function ToUnsigned(x: int): int {
    if x < 0 then x + 0x1_0000_0000_0000_0000 else x
  }

  /** The argument of usleep (32 bits), or 0 when it is not called. */
  function SleepUs(size: nat, bandwidth: int, elapsed: int): nat {
    if bandwidth <= 0 then 0
    else
      var rate := RateUs(size, bandwidth);
      if ToUnsigned(elapsed) < rate then (rate - elapsed) % 0x1_0000_0000 else 0
  }

  predicate Enabled(s: State, step: Step) {
    match step
    case Tick(_) => true
    case Begin => s.sender == Head
    case Stop => s.sender == Head
    case Pop => s.sender == AtQueue
    case Wake => s.sender == Waiting
    case Send => s.sender.Sending?
    case Check => s.sender.Checking?
    case Pace => s.sender.Timing?
    case SleepOver => s.sender.Sleeping? && s.now >= s.sender.until
    case Receive(_) => s.receiver == Receiving
    case Push => s.receiver.Got?
  }

  function Next(s: State, step: Step): State
    requires Enabled(s, step) && s.stream.rd <= |s.stream.written|
  {
    match step
    case Tick(ns) => s.(now := s.now + ns)
    case Begin => s.(tstart := s.now, sender := AtQueue)
    case Stop => s.(sender := Stopped)
    case Pop =>
      var queue := Contents(s.stream);
      if queue == [] then s.(sender := Waiting)
      else s.(sender := Sending(queue[0]), stream := Take(s.stream))
    case Wake => s.(sender := AtQueue)
    case Send => s.(sender := Checking(|s.sender.packet|), sent := s.sent + [s.sender.packet])
    case Check =>
      var queue := Contents(s.stream);
      var s' := s.(sender := Timing(s.sender.size));
      if s.limit > 0 && |queue| > s.limit
      then s'.(stream := Store(s.stream, [], |queue|), cleared := s.cleared + Positions(s.stream)) else s'
    case Pace =>
      s.(sender := Sleeping(s.now + 1000 * SleepUs(s.sender.size, s.bandwidth, Elapsed(s.tstart, s.now))))
    case SleepOver => s.(sender := Head, iterations := s.iterations + 1)
    case Receive(p) => s.(receiver := Got(p))
    case Push =>
      s.(receiver := Receiving, stream := Store(s.stream, [s.receiver.packet], 0),
         sender := if s.sender == Waiting then AtQueue else s.sender)
  }

  /** The arrival positions of the queued packets. */
  function Positions(q: Queue<Packet>): seq<nat>
    requires q.rd <= |q.written|
  {
    seq(|q.written| - q.rd, i requires 0 <= i => q.rd + i)
  }

  /** The packet the sender holds between taking it off the queue and sending it. */
  function Hand(s: State): seq<Packet> {
    if s.sender.Sending? then [s.sender.packet] else []
  }

  function Bytes(packets: seq<Packet>): nat {
    if packets == [] then 0 else Bytes(packets[..|packets| - 1]) + |packets[|packets| - 1]|
  }

  /** Every packet that left the queue was either taken by the sender or cleared, never both. */
  ghost predicate Partitioned(q: Queue<Packet>, cleared: seq<nat>) {
    && |cleared| == Lost(q)
    && IncreasingBelow(cleared, q.rd)
    && forall k: nat :: k < q.rd ==> (k in q.taken <==> k !in cleared)
  }

  ghost predicate Inv(s: State) {
    && Sound(s.stream)
    && s.sent + Hand(s) == Delivered(s.stream)
    && Partitioned(s.stream, s.cleared)
    && s.tstart <= s.now
    && (s.sender.Checking? ==> s.sent != [] && s.sender.size == |s.sent[|s.sent| - 1]|)
    && (s.sender.Timing? ==> s.sent != [] && s.sender.size == |s.sent[|s.sent| - 1]|)
    && (s.sender == Waiting ==> Contents(s.stream) == [])
  }

  function Start(bandwidth: int, limit: int): (s: State)
    ensures Inv(s)
  {
    assert Delivered(Empty<Packet>()) == [];
    State(bandwidth, limit, 0, 0, Head, Receiving, Empty(), [], [], 0)
  }

  lemma InvStep(s: State, step: Step)
    requires Inv(s) && Enabled(s, step)
    ensures Inv(Next(s, step))
  {
    match step {
      case Pop => InvPop(s);
      case Check => InvCheck(s);
      case Push => InvPush(s);
      case Send => InvSend(s);
      case _ =>
    }
  }

  lemma InvSend(s: State)
    requires Inv(s) && Enabled(s, Send)
    ensures Inv(Next(s, Send))
  {
  }

  lemma PartitionTake(q: Queue<Packet>, cleared: seq<nat>)
    requires Sound(q) && Partitioned(q, cleared)
    ensures Partitioned(Take(q), cleared)
  {
  }

  lemma PartitionClear(q: Queue<Packet>, cleared: seq<nat>)
    requires Sound(q) && Partitioned(q, cleared)
    ensures Partitioned(Store(q, [], |Contents(q)|), cleared + Positions(q))
  {
    var q', cleared' := Store(q, [], |Contents(q)|), cleared + Positions(q);
    forall k: nat | k < q'.rd ensures k in q'.taken <==> k !in cleared' {
      if k >= q.rd {
        assert Positions(q)[k - q.rd] == k;
        assert cleared'[|cleared| + (k - q.rd)] == k;
      }
    }
  }

  lemma InvPop(s: State)
    requires Inv(s) && Enabled(s, Pop)
    ensures Inv(Next(s, Pop))
    ensures var queue := Contents(s.stream);
            Contents(Next(s, Pop).stream) == if queue == [] then [] else queue[1..]
  {
    if Contents(s.stream) != [] {
      TakeOldest(s.stream);
      PartitionTake(s.stream, s.cleared);
    }
  }

  lemma InvCheck(s: State)
    requires Inv(s) && Enabled(s, Check)
    ensures Inv(Next(s, Check))
    ensures var queue := Contents(s.stream);
            Contents(Next(s, Check).stream) == if s.limit > 0 && |queue| > s.limit then [] else queue
  {
    StoreSound(s.stream, [], |Contents(s.stream)|);
    PartitionClear(s.stream, s.cleared);
  }

  lemma InvPush(s: State)
    requires Inv(s) && Enabled(s, Push)
    ensures Inv(Next(s, Push))
    ensures Contents(Next(s, Push).stream) == Contents(s.stream) + [s.receiver.packet]
  {
    StoreSound(s.stream, [s.receiver.packet], 0);
  }

  // Runs.

  ghost predicate ValidRun(s: State, steps: seq<Step>)
    requires Inv(s)
    decreases |steps|
  {
    steps == [] || (Enabled(s, steps[0]) && (InvStep(s, steps[0]); ValidRun(Next(s, steps[0]), steps[1..])))
  }

  ghost function After(s: State, steps: seq<Step>): (s': State)
    requires Inv(s) && ValidRun(s, steps)
    ensures Inv(s')
    decreases |steps|
  {
    if steps == [] then s else (InvStep(s, steps[0]); After(Next(s, steps[0]), steps[1..]))
  }

  /** Conservation and order in every interleaving: of the packets that arrived, the queue holds the
      latest, every other one was either given to the sender or cleared and not both, and those sent,
      then the one in the sender's hand, sit at strictly increasing arrival positions. */
  lemma ConservationAndOrder(bandwidth: int, limit: int, steps: seq<Step>)
    requires ValidRun(Start(bandwidth, limit), steps)
    ensures var s := After(Start(bandwidth, limit), steps);
            var arrived, queue, out := s.stream.written, Contents(s.stream), s.sent + Hand(s);
            && |arrived| == |out| + |s.cleared| + |queue|
            && queue == arrived[|arrived| - |queue|..]
            && (forall k: nat :: k < |arrived| - |queue| ==> (k in s.stream.taken <==> k !in s.cleared))
            && IncreasingBelow(s.stream.taken, |arrived| - |queue|)
            && IncreasingBelow(s.cleared, |arrived| - |queue|)
            && |out| == |s.stream.taken|
            && forall k :: 0 <= k < |out| ==> out[k] == arrived[s.stream.taken[k]]
  {
    var s := After(Start(bandwidth, limit), steps);
    assert |s.sent + Hand(s)| == |s.stream.taken|;
  }

  /** What recv brought over a run, from its Receive steps alone. */
  function Arrivals(steps: seq<Step>): seq<Packet> {
    if steps == [] then [] else (if steps[0].Receive? then [steps[0].packet] else []) + Arrivals(steps[1..])
  }

  /** What recv brought and the receiver has not queued yet. */
  function InFlight(s: State): seq<Packet> {
    if s.receiver.Got? then [s.receiver.packet] else []
  }

  /** In every interleaving the arrivals are what recv brought, packet by packet, and each turn has sent one. */
  lemma ArrivalsAreReceived(bandwidth: int, limit: int, steps: seq<Step>)
    requires ValidRun(Start(bandwidth, limit), steps)
    ensures var s := After(Start(bandwidth, limit), steps);
            && s.stream.written + InFlight(s) == Arrivals(steps)
            && |s.sent| == s.iterations + (if SentInTurn(s) then 1 else 0)
  {
    RunArrives(Start(bandwidth, limit), steps);
    assert [] + Arrivals(steps) == Arrivals(steps);
  }

  /** The packet of the turn in progress has been sent. */
  predicate SentInTurn(s: State) {
    s.sender.Checking? || s.sender.Timing? || s.sender.Sleeping?
  }

  lemma {:induction false} RunArrives(s: State, steps: seq<Step>)
    requires Inv(s) && ValidRun(s, steps) && |s.sent| == s.iterations + (if SentInTurn(s) then 1 else 0)
    ensures var t := After(s, steps);
            && t.stream.written + InFlight(t) == s.stream.written + InFlight(s) + Arrivals(steps)
            && |t.sent| == t.iterations + (if SentInTurn(t) then 1 else 0)
    decreases |steps|
  {
    if steps == [] {
      assert s.stream.written + InFlight(s) + [] == s.stream.written + InFlight(s);
    } else {
      InvStep(s, steps[0]);
      StepArrives(s, steps[0]);
      RunArrives(Next(s, steps[0]), steps[1..]);
      Associates(s.stream.written + InFlight(s), if steps[0].Receive? then [steps[0].packet] else [],
                 Arrivals(steps[1..]));
    }
  }

  lemma StepArrives(s: State, step: Step)
    requires Inv(s) && Enabled(s, step) && |s.sent| == s.iterations + (if SentInTurn(s) then 1 else 0)
    ensures var t := Next(s, step);
            && t.stream.written + InFlight(t)
               == s.stream.written + InFlight(s) + (if step.Receive? then [step.packet] else [])
            && |t.sent| == t.iterations + (if SentInTurn(t) then 1 else 0)
  {
    var before := s.stream.written + InFlight(s);
    assert before + [] == before && s.stream.written + [] == s.stream.written;
  }

  lemma Associates(a: seq<Packet>, b: seq<Packet>, c: seq<Packet>)
    ensures a + b + c == a + (b + c)
  {
  }

  /** At its loop head the sender may leave, and then sends nothing more in any run. */
  lemma StopIsFinal(s: State, steps: seq<Step>)
    requires Inv(s) && s.sender == Head
    ensures Enabled(s, Stop) && Inv(Next(s, Stop))
    ensures ValidRun(Next(s, Stop), steps) ==>
              var t := After(Next(s, Stop), steps);
              t.sender == Stopped && t.sent == s.sent && t.stream.rd == s.stream.rd
  {
    if ValidRun(Next(s, Stop), steps) {
      StoppedStays(Next(s, Stop), steps);
    }
  }

  lemma {:induction false} StoppedStays(s: State, steps: seq<Step>)
    requires Inv(s) && s.sender == Stopped && ValidRun(s, steps)
    ensures var t := After(s, steps); t.sender == Stopped && t.sent == s.sent && t.stream.rd == s.stream.rd
    decreases |steps|
  {
    if steps != [] {
      InvStep(s, steps[0]);
      StoppedStays(Next(s, steps[0]), steps[1..]);
    }
  }

  /** The tunnel is an exact first-in first-out line exactly as long as nothing was cleared. */
  lemma NothingClearedIffExact(bandwidth: int, limit: int, steps: seq<Step>)
    requires ValidRun(Start(bandwidth, limit), steps)
    ensures var s := After(Start(bandwidth, limit), steps);
            s.cleared == [] <==> s.sent + Hand(s) + Contents(s.stream) == s.stream.written
  {
    var s := After(Start(bandwidth, limit), steps);
    if s.cleared == [] {
      AllTaken(s.stream.taken, s.stream.rd);
      assert Delivered(s.stream) == s.stream.written[..s.stream.rd];
    } else {
      assert |s.sent + Hand(s)| == |s.stream.taken| < s.stream.rd;
    }
  }

  /** As many increasing positions as there are below the bound are all of them. */
  lemma {:induction false} AllTaken(s: seq<nat>, bound: nat)
    requires IncreasingBelow(s, bound) && |s| == bound
    ensures forall k :: 0 <= k < |s| ==> s[k] == k
  {
    if bound > 0 {
      var init, last := s[..bound - 1], s[bound - 1];
      TakenBound(init, last);
      AllTaken(init, bound - 1);
      assert forall k :: 0 <= k < bound - 1 ==> s[k] == init[k];
    }
  }

  lemma {:induction false} UnlimitedClearsNothing(s: State, steps: seq<Step>)
    requires Inv(s) && ValidRun(s, steps) && s.limit <= 0
    ensures After(s, steps).cleared == s.cleared && After(s, steps).limit == s.limit
    decreases |steps|
  {
    if steps != [] {
      InvStep(s, steps[0]);
      UnlimitedClearsNothing(Next(s, steps[0]), steps[1..]);
    }
  }

  ghost predicate Without(steps: seq<Step>, x: Step) {
    forall k :: 0 <= k < |steps| ==> steps[k] != x
  }

  /** Until the sender takes the lock, the front packet stays in front, whatever arrives behind it. */
  lemma {:induction false} FrontStays(s: State, steps: seq<Step>)
    requires Inv(s) && s.sender == AtQueue && Contents(s.stream) != []
    requires ValidRun(s, steps) && Without(steps, Pop)
    ensures var t := After(s, steps);
            t.sender == AtQueue && Contents(t.stream) != [] && Contents(t.stream)[0] == Contents(s.stream)[0]
    decreases |steps|
  {
    if steps != [] {
      InvStep(s, steps[0]);
      if steps[0] == Push {
        InvPush(s);
      }
      FrontStays(Next(s, steps[0]), steps[1..]);
    }
  }

  /** A waiting sender has an empty queue; the next push wakes it, and whenever it then gets the lock, after
      any steps of the receiver and the clock, it takes that packet: no wakeup is lost. */
  lemma PushEndsTheWait(s: State, between: seq<Step>)
    requires Inv(s) && s.sender == Waiting && s.receiver.Got?
    requires ValidRun(s, [Push] + between) && Without(between, Pop)
    ensures Contents(s.stream) == []
    ensures var t := After(s, [Push] + between);
            Enabled(t, Pop) && Next(t, Pop).sender == Sending(s.receiver.packet)
  {
    assert ([Push] + between)[1..] == between;
    InvPush(s);
    assert Contents(s.stream) + [s.receiver.packet] == [s.receiver.packet];
    FrontStays(Next(s, Push), between);
  }

  // The rate.

  /** With a monotone clock the elapsed time is never negative, so the comparison with an unsigned
      value and the 32-bit sleep argument lose nothing. */
  lemma WidthsSuffice(size: nat, bandwidth: int, tstart: nat, tend: nat)
    requires bandwidth > 0 && size <= MAX_PACKET && tstart <= tend
    ensures 0 <= Elapsed(tstart, tend)
    ensures var e, rate := Elapsed(tstart, tend), RateUs(size, bandwidth);
            SleepUs(size, bandwidth, e) == if e < rate then rate - e else 0
  {
    ElapsedBound(tstart, tend);
    DivLe(size * 1_000_000, bandwidth);
  }

  lemma DivLe(a: nat, b: int)
    requires b > 0
    ensures a / b <= a
  {
    var q := a / b;
    assert a == b * q + a % b && q >= 0;
    MulMono(q, 1, b);
  }

  /** The measured microseconds are within one of the true time, on either side. */
  lemma ElapsedBound(tstart: nat, tend: nat)
    requires tstart <= tend
    ensures 0 <= Elapsed(tstart, tend)
    ensures -1000 < 1000 * Elapsed(tstart, tend) - (tend - tstart) < 1000
  {
  }

  /** One turn: from its start to the earliest end of its sleep, a packet takes less than two
      microseconds short of its share of the bandwidth. */
  lemma TurnIsLongEnough(size: nat, bandwidth: int, tstart: nat, tend: nat)
    requires bandwidth > 0 && size <= MAX_PACKET && tstart <= tend
    ensures var until := tend + 1000 * SleepUs(size, bandwidth, Elapsed(tstart, tend));
            size * SECOND < bandwidth * (until - tstart + 2000)
  {
    WidthsSuffice(size, bandwidth, tstart, tend);
    ElapsedBound(tstart, tend);
    EnoughTime(size, bandwidth, Elapsed(tstart, tend), SleepUs(size, bandwidth, Elapsed(tstart, tend)), tend - tstart);
  }

  lemma EnoughTime(size: nat, bandwidth: int, elapsed: int, sleep: nat, time: nat)
    requires bandwidth > 0 && 1000 * elapsed - time < 1000
    requires sleep >= RateUs(size, bandwidth) - elapsed
    ensures size * SECOND < bandwidth * (time + 1000 * sleep + 2000)
  {
    var rate, total := RateUs(size, bandwidth), time + 1000 * sleep + 2000;
    QuotientAbove(size * 1_000_000, bandwidth);
    MulMono(bandwidth, 1000 * (rate + 1), total);
    assert bandwidth * (1000 * (rate + 1)) == 1000 * (bandwidth * (rate + 1));
  }

  lemma QuotientAbove(a: nat, b: int)
    requires b > 0
    ensures a < b * (a / b + 1)
  {
  }

  lemma MulMono(b: int, x: int, y: int)
    requires b >= 0 && x <= y
    ensures b * x <= b * y
  {
  }

  /** The sleep of a turn is the packet's share of the bandwidth less the time already spent, in whole
      microseconds: never shorter by one, and never longer, so there is none when the time is up already. */
  ghost predicate IsShare(size: nat, bandwidth: int, elapsed: int, sleep: int) {
    && size * 1_000_000 < bandwidth * (elapsed + sleep + 1)
    && (sleep > 0 ==> bandwidth * (elapsed + sleep) <= size * 1_000_000)
    && (bandwidth * elapsed >= size * 1_000_000 ==> sleep == 0)
  }

  lemma RateIsShare(size: nat, bandwidth: int, elapsed: int, rate: int, sleep: int)
    requires bandwidth > 0 && rate == size * 1_000_000 / bandwidth
    requires sleep == if elapsed < rate then rate - elapsed else 0
    ensures IsShare(size, bandwidth, elapsed, sleep)
  {
    QuotientAbove(size * 1_000_000, bandwidth);
    QuotientBelow(size * 1_000_000, bandwidth);
    MulMono(bandwidth, rate + 1, elapsed + sleep + 1);
    if elapsed < rate {
      MulMono(bandwidth, elapsed + 1, rate);
      assert bandwidth * (elapsed + 1) == bandwidth * elapsed + bandwidth;
    }
  }

  lemma QuotientBelow(a: nat, b: int)
    requires b > 0
    ensures b * (a / b) <= a
  {
  }

  /** Pacing is exact: without a bandwidth the sender goes straight on; with one the end of its sleep is the
      packet's share after the end time, and in true time the turn lasts less than a microsecond too long. */
  lemma PaceIsExact(s: State)
    requires Inv(s) && Enabled(s, Pace)
    ensures var t, size := Next(s, Pace), s.sender.size;
            && t.sender.Sleeping?
            && (s.bandwidth <= 0 ==> t.sender.until == s.now)
            && (s.bandwidth > 0 ==> exists sleep: nat ::
                  && t.sender.until == s.now + 1000 * sleep
                  && IsShare(size, s.bandwidth, Elapsed(s.tstart, s.now), sleep)
                  && (sleep > 0 ==> s.bandwidth * (t.sender.until - s.tstart - 1000) < size * SECOND))
  {
    if s.bandwidth > 0 {
      var size, e := s.sender.size, Elapsed(s.tstart, s.now);
      var sleep := SleepUs(size, s.bandwidth, e);
      WidthsSuffice(size, s.bandwidth, s.tstart, s.now);
      RateIsShare(size, s.bandwidth, e, RateUs(size, s.bandwidth), sleep);
      if sleep > 0 {
        ElapsedBound(s.tstart, s.now);
        ShareInTime(size, s.bandwidth, e, sleep, s.now - s.tstart);
      }
    }
  }

  lemma ShareInTime(size: nat, bandwidth: int, elapsed: int, sleep: nat, time: int)
    requires bandwidth > 0 && 1000 * elapsed - time > -1000
    requires bandwidth * (elapsed + sleep) <= size * 1_000_000
    ensures bandwidth * (time + 1000 * sleep - 1000) < size * SECOND
  {
    var total := time + 1000 * sleep - 1000;
    MulMono(bandwidth, total + 1, 1000 * (elapsed + sleep));
    assert bandwidth * (total + 1) == bandwidth * total + bandwidth;
    assert bandwidth * (1000 * (elapsed + sleep)) == 1000 * (bandwidth * (elapsed + sleep));
  }

  lemma {:induction false} BytesAppend(packets: seq<Packet>, p: Packet)
    ensures Bytes(packets + [p]) == Bytes(packets) + |p|
  {
    assert (packets + [p])[..|packets|] == packets;
  }

  /** The bytes sent since `s0`, without those of the turn in progress. */
  function Settled(s0: State, s: State): int {
    Bytes(s.sent) - Bytes(s0.sent) - (if s.sender.Checking? || s.sender.Timing? then s.sender.size else 0)
  }

  /** The rate account of a run that began at `s0` between two turns. */
  ghost predicate Paced(s0: State, s: State) {
    && s.bandwidth == s0.bandwidth > 0
    && s.now >= s0.now
    && s.iterations >= s0.iterations
    && var n := s.iterations - s0.iterations;
       match s.sender
       case Head => Covered(Settled(s0, s), s.bandwidth, s.now - s0.now, n)
       case Stopped => true
       case Sleeping(until) => until >= s0.now && Covered(Settled(s0, s), s.bandwidth, until - s0.now, n + 1)
       case _ => s0.now <= s.tstart && Covered(Settled(s0, s), s.bandwidth, s.tstart - s0.now, n)
  }

  /** `bytes` in `n` turns over `time` nanoseconds stay below the bandwidth plus two microseconds a turn. */
  predicate Covered(bytes: int, bandwidth: int, time: int, n: nat) {
    if n == 0 then bytes == 0 else bytes * SECOND < bandwidth * (time + 2000 * n)
  }

  lemma CoveredLater(bytes: int, bandwidth: int, time: int, later: int, n: nat)
    requires bandwidth > 0 && time <= later && Covered(bytes, bandwidth, time, n)
    ensures Covered(bytes, bandwidth, later, n)
  {
    MulMono(bandwidth, time + 2000 * n, later + 2000 * n);
  }

  lemma PacedTick(s0: State, s: State, ns: nat)
    requires Inv(s) && Paced(s0, s)
    ensures Paced(s0, Next(s, Tick(ns)))
  {
    if s.sender == Head {
      CoveredLater(Settled(s0, s), s.bandwidth, s.now - s0.now, s.now + ns - s0.now, s.iterations - s0.iterations);
    }
  }

  lemma PacedSleepOver(s0: State, s: State)
    requires Inv(s) && Enabled(s, SleepOver) && Paced(s0, s)
    ensures Paced(s0, Next(s, SleepOver))
  {
    CoveredLater(Settled(s0, s), s.bandwidth, s.sender.until - s0.now, s.now - s0.now,
                 s.iterations - s0.iterations + 1);
  }

  lemma PacedSend(s0: State, s: State)
    requires Inv(s) && Enabled(s, Send) && Paced(s0, s)
    ensures Paced(s0, Next(s, Send))
  {
    BytesAppend(s.sent, s.sender.packet);
    assert Settled(s0, Next(s, Send)) == Settled(s0, s);
  }

  lemma PacedStep(s0: State, s: State, step: Step)
    requires Inv(s) && Enabled(s, step) && Paced(s0, s)
    ensures Paced(s0, Next(s, step))
  {
    match step {
      case Tick(ns) => PacedTick(s0, s, ns);
      case SleepOver => PacedSleepOver(s0, s);
      case Send => PacedSend(s0, s);
      case Pace => PaceCovers(s0, s);
      case _ =>
    }
  }

  lemma PaceCovers(s0: State, s: State)
    requires Inv(s) && Enabled(s, Pace) && Paced(s0, s)
    ensures Paced(s0, Next(s, Pace))
  {
    var size, until := s.sender.size, Next(s, Pace).sender.until;
    TurnIsLongEnough(size, s.bandwidth, s.tstart, s.now);
    CoverTurn(Settled(s0, s), size, s.bandwidth, s.tstart - s0.now, until - s.tstart, s.iterations - s0.iterations);
  }

  /** One more turn of `turn` nanoseconds after `time`. */
  lemma CoverTurn(bytes: int, size: nat, bandwidth: int, time: nat, turn: int, n: nat)
    requires bandwidth > 0 && Covered(bytes, bandwidth, time, n)
    requires size * SECOND < bandwidth * (turn + 2000)
    ensures Covered(bytes + size, bandwidth, time + turn, n + 1)
  {
    MulMono(bandwidth, 0, time);
    Distributes(bandwidth, time + 2000 * n, turn + 2000);
  }

  lemma Distributes(b: int, x: int, y: int)
    ensures b * x + b * y == b * (x + y)
  {
  }

  lemma {:induction false} PacedRun(s0: State, s: State, steps: seq<Step>)
    requires Inv(s) && ValidRun(s, steps) && Paced(s0, s)
    ensures Paced(s0, After(s, steps))
    decreases |steps|
  {
    if steps != [] {
      InvStep(s, steps[0]);
      PacedStep(s0, s, steps[0]);
      PacedRun(s0, Next(s, steps[0]), steps[1..]);
    }
  }

  /** The rate bound, over any stretch of any interleaving from one turn boundary to another: n > 0
      completed turns in T nanoseconds send fewer than bandwidth * (T + 2000 n) / 10^9 bytes. */
  lemma RateBound(s: State, steps: seq<Step>)
    requires Inv(s) && s.bandwidth > 0 && s.sender == Head && ValidRun(s, steps)
    requires After(s, steps).sender == Head
    ensures var s' := After(s, steps);
            var n, bytes := s'.iterations - s.iterations, Bytes(s'.sent) - Bytes(s.sent);
            && n >= 0
            && (n == 0 ==> bytes == 0)
            && (n > 0 ==> bytes * SECOND < s.bandwidth * (s'.now - s.now + 2000 * n))
  {
    PacedRun(s, s, steps);
  }
}
