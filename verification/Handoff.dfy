/** The two-thread byte handoff shared by lib/source_tcp.c (threaded build), lib/source_tcpout.c and
    lib/source_udp.c: a server thread fills one buffer with recv outside the lock, publishes it by two
    stores under the lock and waits until the pipeline thread has drained it. The pipeline thread
    peeks at the two variables without the lock and reads bytes with it.

    A step is one load or store of a shared variable, one lock operation, or the effect of one library
    call; memory is sequentially consistent. */
module Handoff {
  import opened Common

  const BUFFER_SIZE := 4096

  datatype Flavour = Tcp | TcpOut | Udp

  datatype ServerPc =
    | Top                  // loop head
    | Receiving            // inside recv: the kernel is storing bytes
    | Received(n: nat)     // recv returned n > 0, lock not yet taken
    | Locked(n: nat)       // lock taken
    | Rewound(n: nat)      // cur_read = 0 stored, buffer_size still the old one
    | Testing              // at the while condition, holding the lock
    | Waiting              // inside cnd_wait
    | Woken                // cnd_wait wants the lock back
    | Stopped

  datatype ConsumerPc =
    | Idle
    | Peeking              // has_more: about to load buffer_size for the test > 0
    | Comparing            // that load was positive; neither operand of < loaded yet
    | HaveCur(c: int)      // cur_read loaded first
    | HaveSize(z: int)     // buffer_size loaded first
    | Claimed              // has_more returned 1, read_byte comes next
    | Missed               // the test failed, the lock comes next
    | Signalling           // lock held, cnd_signal comes next
    | Reading              // read_byte holds the lock
    | Done                 // read_byte is about to unlock

  datatype Owner = Free | Server | Consumer

  /** `received` is the concatenation of everything recv returned, `delivered` the real bytes
      read_byte returned, `fillers` how often it returned its filler 0. */
  datatype State = State(flavour: Flavour, link: bool, buffer: seq<byte>, cur: int, size: int, lock: Owner,
                         server: ServerPc, consumer: ConsumerPc,
                         received: seq<byte>, delivered: seq<byte>, fillers: nat)

  datatype Step =
    // server
    | Stop
    | Connect(ok: bool, open: bool)
    | StartRecv
    | Fill(at: nat, b: byte)
    | RecvReturns(n: int)
    | Lock
    | Rewind
    | Publish
    | Test
    | Wake
    | Relock
    // consumer
    | CallHasMore
    | LoadPositive
    | LoadCur
    | LoadSize
    | LockToSignal
    | Signal
    | LockToRead
    | TakeByte
    | Unlock

  predicate IsServerStep(step: Step) {
    step.Stop? || step.Connect? || step.StartRecv? || step.Fill? || step.RecvReturns? || step.Lock?
    || step.Rewind? || step.Publish? || step.Test? || step.Wake? || step.Relock?
  }

  predicate Enabled(s: State, step: Step) {
    match step
    case Stop => s.server == Top
    case Connect(ok, open) =>
      // accept leaves no connection when it fails; connect_to may leave its socket open
      s.server == Top && s.flavour != Udp && !s.link && (ok ==> open) && (s.flavour == Tcp ==> (open ==> ok))
    case StartRecv => s.server == Top && s.link
    case Fill(at, _) => s.server == Receiving && at < |s.buffer|
    case RecvReturns(n) => s.server == Receiving && -1 <= n <= |s.buffer|
    case Lock => s.server.Received? && s.lock == Free
    case Rewind => s.server.Locked?
    case Publish => s.server.Rewound?
    case Test => s.server == Testing
    case Wake => s.server == Waiting
    case Relock => s.server == Woken && s.lock == Free
    case CallHasMore => s.consumer == Idle
    case LoadPositive => s.consumer == Peeking
    case LoadCur => s.consumer == Comparing || s.consumer.HaveSize?
    case LoadSize => s.consumer == Comparing || s.consumer.HaveCur?
    case LockToSignal => s.consumer == Missed && s.lock == Free
    case Signal => s.consumer == Signalling
    case LockToRead => s.consumer == Claimed && s.lock == Free
    case TakeByte => s.consumer == Reading
    case Unlock => s.consumer == Done
  }

  /** cnd_signal lets a waiter go. */
  function Signalled(server: ServerPc): ServerPc {
    if server == Waiting then Woken else server
  }

  function Next(s: State, step: Step): State
    requires Enabled(s, step)
  {
    match step
    case Stop => s.(server := Stopped)
    case Connect(ok, open) => s.(link := open, server := if ok then Receiving else Top)
    case StartRecv => s.(server := Receiving)
    case Fill(at, b) => s.(buffer := s.buffer[at := b])
    case RecvReturns(n) =>
      if n <= 0 then s.(link := s.flavour == Udp, server := Top)
      else s.(server := Received(n), received := s.received + s.buffer[..n])
    case Lock => s.(lock := Server, server := Locked(s.server.n))
    case Rewind => s.(cur := 0, server := Rewound(s.server.n))
    case Publish => s.(size := s.server.n, server := Testing)
    case Test => s.(lock := Free, server := if s.cur < s.size then Waiting else Top)
    case Wake => s.(server := Woken)
    case Relock => s.(lock := Server, server := Testing)
    case CallHasMore => s.(consumer := Peeking)
    case LoadPositive => s.(consumer := if s.size > 0 then Comparing else Missed)
    case LoadCur => Compare(s, s.cur, if s.consumer.HaveSize? then Some(s.consumer.z) else None, HaveCur(s.cur))
    case LoadSize =>
      if s.consumer.HaveCur? then Compare(s, s.consumer.c, Some(s.size), Idle) else s.(consumer := HaveSize(s.size))
    case LockToSignal => s.(lock := Consumer, consumer := Signalling)
    case Signal => s.(lock := Free, server := Signalled(s.server), consumer := Idle)
    case LockToRead => s.(lock := Consumer, consumer := Reading)
    case TakeByte =>
      if s.cur >= s.size then s.(server := Signalled(s.server), fillers := s.fillers + 1, consumer := Done)
      else if 0 <= s.cur < |s.buffer| then
        s.(delivered := s.delivered + [s.buffer[s.cur]], cur := s.cur + 1, consumer := Done)
      else s.(consumer := Done)
    case Unlock => s.(lock := Free, consumer := Idle)
  }

  /** The comparison `c < z` once both operands are loaded, or `otherwise` while one is missing. */
  function Compare(s: State, c: int, z: Option<int>, otherwise: ConsumerPc): State {
    match z
    case None => s.(consumer := otherwise)
    case Some(z) => s.(consumer := if c < z then Claimed else Missed)
  }

  /** Bytes recv returned and read_byte has not: the pending chunk, or the unread part of the
      published one. */
  function Outstanding(s: State): seq<byte>
    requires 0 <= s.cur <= |s.buffer| && s.size <= |s.buffer|
    requires s.server.Received? || s.server.Locked? || s.server.Rewound? ==> s.server.n <= |s.buffer|
  {
    if s.server.Received? || s.server.Locked? || s.server.Rewound? then s.buffer[..s.server.n]
    else if s.cur < s.size then s.buffer[s.cur..s.size]
    else []
  }

  /** A chunk of which nothing was read yet is published, or about to be before the lock is released. */
  predicate Fresh(s: State) {
    s.server.Rewound? || (s.cur == 0 < s.size && (s.server == Testing || s.server == Waiting || s.server == Woken))
  }

  /** The next holder of the lock other than the server finds an unread byte. */
  predicate Ready(s: State) {
    s.server.Rewound? || s.cur < s.size
  }

  /** What the consumer's loads still say about the present. */
  predicate Evidence(s: State) {
    match s.consumer
    case HaveCur(c) => c == s.cur || Fresh(s)
    case HaveSize(z) => z == s.size || Fresh(s)
    case Claimed => Ready(s)
    case Reading => s.cur < s.size
    case _ => true
  }

  predicate Inv(s: State) {
    && |s.buffer| == BUFFER_SIZE
    && 0 <= s.cur <= s.size <= BUFFER_SIZE
    && (s.lock == Server <==> s.server.Locked? || s.server.Rewound? || s.server == Testing)
    && (s.lock == Consumer <==> s.consumer == Signalling || s.consumer == Reading || s.consumer == Done)
    && (s.server.Received? || s.server.Locked? || s.server.Rewound? ==> 0 < s.server.n <= BUFFER_SIZE)
    && (s.server.Rewound? ==> s.cur == 0)
    && (s.server == Top || s.server == Receiving || s.server.Received? || s.server.Locked? || s.server == Stopped
        ==> s.cur == s.size)
    && (s.server == Testing || s.server == Waiting || s.server == Woken ==> s.size > 0)
    && (s.flavour == Udp ==> s.link)
    && (s.server == Receiving ==> s.link)
    && s.fillers == 0
    && Evidence(s)
    && s.received == s.delivered + Outstanding(s)
  }

  /** The state the init functions leave when they start the server thread. */
  function Start(flavour: Flavour, memory: seq<byte>): (s: State)
    requires |memory| == BUFFER_SIZE
    ensures Inv(s)
  {
    State(flavour, flavour == Udp, memory, 0, 0, Free, Top, Idle, [], [], 0)
  }

  lemma InvStep(s: State, step: Step)
    requires Inv(s) && Enabled(s, step)
    ensures Inv(Next(s, step))
  {
    if IsServerStep(step) {
      if step.Lock? || step.Rewind? || step.Publish? || step.Test? || step.Wake? || step.Relock? {
        InvPublishing(s, step);
      } else {
        InvReceiving(s, step);
      }
    } else if step.TakeByte? {
      InvTakeByte(s);
    } else if step.LoadCur? || step.LoadSize? || step.LoadPositive? {
      InvLoad(s, step);
    } else {
      InvConsumerLock(s, step);
    }
  }

  lemma InvReceiving(s: State, step: Step)
    requires Inv(s) && Enabled(s, step)
    requires step.Stop? || step.Connect? || step.StartRecv? || step.Fill? || step.RecvReturns?
    ensures Inv(Next(s, step))
  {
  }

  lemma InvPublishing(s: State, step: Step)
    requires Inv(s) && Enabled(s, step)
    requires step.Lock? || step.Rewind? || step.Publish? || step.Test? || step.Wake? || step.Relock?
    ensures Inv(Next(s, step))
  {
  }

  lemma InvLoad(s: State, step: Step)
    requires Inv(s) && Enabled(s, step)
    requires step.LoadCur? || step.LoadSize? || step.LoadPositive?
    ensures Inv(Next(s, step))
  {
  }

  lemma InvConsumerLock(s: State, step: Step)
    requires Inv(s) && Enabled(s, step)
    requires step.CallHasMore? || step.LockToSignal? || step.Signal? || step.LockToRead? || step.Unlock?
    ensures Inv(Next(s, step))
  {
  }

  lemma InvTakeByte(s: State)
    requires Inv(s) && Enabled(s, TakeByte)
    ensures Inv(Next(s, TakeByte))
  {
    SliceHead(s.buffer, s.cur, s.size);
    Reassociate(s.delivered, s.buffer[s.cur], s.buffer[s.cur + 1..s.size]);
  }

  lemma SliceHead(s: seq<byte>, i: nat, j: nat)
    requires i < j <= |s|
    ensures s[i..j] == [s[i]] + s[i + 1..j]
  {
  }

  lemma Reassociate(s: seq<byte>, b: byte, t: seq<byte>)
    ensures s + ([b] + t) == s + [b] + t
  {
  }

  predicate ValidRun(s: State, steps: seq<Step>)
    decreases |steps|
  {
    steps == [] || (Enabled(s, steps[0]) && ValidRun(Next(s, steps[0]), steps[1..]))
  }

  function After(s: State, steps: seq<Step>): State
    requires ValidRun(s, steps)
    decreases |steps|
  {
    if steps == [] then s else After(Next(s, steps[0]), steps[1..])
  }

  lemma {:induction false} InvRun(s: State, steps: seq<Step>)
    requires Inv(s) && ValidRun(s, steps)
    ensures Inv(After(s, steps))
    decreases |steps|
  {
    if steps != [] {
      InvStep(s, steps[0]);
      InvRun(Next(s, steps[0]), steps[1..]);
    }
  }

  /** Exactly once and in order, in every interleaving of either kind of thread, across every
      reconnect: what was handed over, followed by what is still outstanding, is what recv returned. */
  lemma ExactlyOnce(flavour: Flavour, memory: seq<byte>, steps: seq<Step>)
    requires |memory| == BUFFER_SIZE && ValidRun(Start(flavour, memory), steps)
    ensures var s := After(Start(flavour, memory), steps);
            && Inv(s)
            && s.received == s.delivered + Outstanding(s)
            && s.delivered <= s.received
  {
    InvRun(Start(flavour, memory), steps);
  }

  /** The unlocked peek is sound in every interleaving: once has_more has returned 1, read_byte's
      locked section takes the next byte of the stream, never the filler. */
  lemma PeekIsSound(flavour: Flavour, memory: seq<byte>, steps: seq<Step>)
    requires |memory| == BUFFER_SIZE && ValidRun(Start(flavour, memory), steps)
    ensures var s := After(Start(flavour, memory), steps);
            && s.fillers == 0
            && (Enabled(s, TakeByte) ==>
                  && |s.delivered| < |s.received|
                  && Next(s, TakeByte).delivered == s.delivered + [s.received[|s.delivered|]]
                  && Next(s, TakeByte).fillers == 0)
  {
    InvRun(Start(flavour, memory), steps);
  }

  /** recv never writes the buffer while a published byte is unread or a chunk is pending. */
  lemma RecvOwnsTheBuffer(flavour: Flavour, memory: seq<byte>, steps: seq<Step>, at: nat, b: byte)
    requires |memory| == BUFFER_SIZE && ValidRun(Start(flavour, memory), steps)
    ensures var s := After(Start(flavour, memory), steps);
            Inv(s) && (Enabled(s, Fill(at, b)) ==> Outstanding(s) == [] && s.delivered == s.received)
  {
    InvRun(Start(flavour, memory), steps);
  }

  // The connection.

  /** After recv returned 0 or -1 the server is at its loop head with nothing published, and a TCP connection is
      gone: it can do no recv, only connect again, and then receives on the new one. A UDP server receives
      again. */
  lemma FailedRecvDrops(s: State, n: int)
    requires Inv(s) && Enabled(s, RecvReturns(n)) && n <= 0
    ensures var t := Next(s, RecvReturns(n));
            && t.server == Top && t.received == s.received && t.delivered == s.delivered && t.buffer == s.buffer
            && t.cur == s.cur && t.size == s.size
            && if s.flavour == Udp then Enabled(t, StartRecv) && Next(t, StartRecv).server == Receiving
               else && !t.link && !Enabled(t, StartRecv)
                    && Enabled(t, Connect(true, true)) && Next(t, Connect(true, true)).server == Receiving
  {
  }

  /** A step that brings a connection: connect_to may leave its socket open although it failed, and the server
      then goes on to receive on that socket. */
  predicate Opens(step: Step) {
    step.Connect? && step.open
  }

  /** A failed accept changes nothing. A connect_to that fails after the socket was made leaves it open, and the
      server then goes on to recv on it. */
  lemma FailedConnect(s: State)
    requires Inv(s) && s.server == Top && s.flavour != Udp && !s.link
    ensures Enabled(s, Connect(false, false)) && Next(s, Connect(false, false)) == s
    ensures Enabled(s, Connect(false, true)) <==> s.flavour == TcpOut
    ensures s.flavour == TcpOut ==>
              var t := Next(s, Connect(false, true));
              t.received == s.received && !Enabled(t, Connect(true, true))
              && Enabled(t, StartRecv) && Next(t, StartRecv).server == Receiving
  {
  }

  /** Without a connection a TCP server receives nothing, in any interleaving, until a step brings one. */
  lemma {:induction false} NoConnectionNoBytes(s: State, steps: seq<Step>)
    requires Inv(s) && s.flavour != Udp && !s.link && (s.server == Top || s.server == Stopped)
    requires ValidRun(s, steps) && forall k :: 0 <= k < |steps| ==> !Opens(steps[k])
    ensures var t := After(s, steps);
            !t.link && (t.server == Top || t.server == Stopped) && t.received == s.received && t.buffer == s.buffer
    decreases |steps|
  {
    if steps != [] {
      InvStep(s, steps[0]);
      NoConnectionNoBytes(Next(s, steps[0]), steps[1..]);
    }
  }

  /** So it is from the start, and after every recv that returned 0 or -1, whatever happened before. */
  lemma DroppedUntilConnect(flavour: Flavour, memory: seq<byte>, before: seq<Step>, n: int, after: seq<Step>)
    requires flavour != Udp && |memory| == BUFFER_SIZE && ValidRun(Start(flavour, memory), before)
    requires var s := After(Start(flavour, memory), before);
             && n <= 0 && Enabled(s, RecvReturns(n)) && ValidRun(Next(s, RecvReturns(n)), after)
    requires forall k :: 0 <= k < |after| ==> !Opens(after[k])
    ensures var s := After(Start(flavour, memory), before);
            var t := After(Next(s, RecvReturns(n)), after);
            t.server != Receiving && !t.link && t.received == s.received
  {
    var s := After(Start(flavour, memory), before);
    InvRun(Start(flavour, memory), before);
    FlavourStays(Start(flavour, memory), before);
    InvStep(s, RecvReturns(n));
    NoConnectionNoBytes(Next(s, RecvReturns(n)), after);
  }

  lemma {:induction false} FlavourStays(s: State, steps: seq<Step>)
    requires ValidRun(s, steps)
    ensures After(s, steps).flavour == s.flavour
    decreases |steps|
  {
    if steps != [] {
      FlavourStays(Next(s, steps[0]), steps[1..]);
    }
  }

  /** What the kernel has stored after these steps, from the bytes of the Fill steps alone. */
  function Stored(memory: seq<byte>, steps: seq<Step>): (memory': seq<byte>)
    ensures |memory'| == |memory|
    decreases |steps|
  {
    if steps == [] then memory else
    Stored(if steps[0].Fill? && steps[0].at < |memory| then memory[steps[0].at := steps[0].b] else memory, steps[1..])
  }

  /** What a recv hands over: from a call to its return, whatever the pipeline thread does meanwhile, the buffer
      becomes what the kernel stores, anywhere in it; any return is possible; and a return of n > 0 adds exactly
      the first n of these bytes to the stream and makes them the pending chunk. */
  lemma RecvHandsOver(s: State, steps: seq<Step>, n: int)
    requires Inv(s) && s.server == Receiving && ValidRun(s, steps)
    requires forall k :: 0 <= k < |steps| ==> !steps[k].RecvReturns?
    requires -1 <= n <= 4096
    ensures var t := After(s, steps);
            && t.server == Receiving && t.buffer == Stored(s.buffer, steps) && t.received == s.received
            && Enabled(t, RecvReturns(n))
            && (forall at: nat, b :: at < 4096 ==> Enabled(t, Fill(at, b)))
            && (n > 0 ==>
                  var u := Next(t, RecvReturns(n));
                  && Inv(u) && u.server == Received(n) && u.link == s.link
                  && u.received == s.received + Stored(s.buffer, steps)[..n]
                  && Outstanding(u) == Stored(s.buffer, steps)[..n])
  {
    InvRun(s, steps);
    RecvStores(s, steps);
    InvStep(After(s, steps), RecvReturns(n));
  }

  lemma {:induction false} RecvStores(s: State, steps: seq<Step>)
    requires Inv(s) && s.server == Receiving && ValidRun(s, steps)
    requires forall k :: 0 <= k < |steps| ==> !steps[k].RecvReturns?
    ensures var t := After(s, steps);
            t.server == Receiving && t.buffer == Stored(s.buffer, steps) && t.received == s.received && t.link == s.link
    decreases |steps|
  {
    if steps != [] {
      InvStep(s, steps[0]);
      RecvStores(Next(s, steps[0]), steps[1..]);
    }
  }

  /** At its loop head the server may leave, and then does nothing more in any run. */
  lemma StopIsFinal(s: State, steps: seq<Step>)
    requires Inv(s) && s.server == Top
    ensures Enabled(s, Stop)
    ensures ValidRun(Next(s, Stop), steps) ==>
              var t := After(Next(s, Stop), steps);
              && t.server == Stopped && t.received == s.received && t.buffer == s.buffer
              && forall k :: 0 <= k < |steps| ==> !IsServerStep(steps[k])
  {
    InvStep(s, Stop);
    if ValidRun(Next(s, Stop), steps) {
      StoppedStays(Next(s, Stop), steps);
    }
  }

  lemma {:induction false} StoppedStays(s: State, steps: seq<Step>)
    requires Inv(s) && s.server == Stopped && ValidRun(s, steps)
    ensures var t := After(s, steps);
            t.server == Stopped && t.received == s.received && t.buffer == s.buffer
    ensures forall k :: 0 <= k < |steps| ==> !IsServerStep(steps[k])
    decreases |steps|
  {
    if steps != [] {
      InvStep(s, steps[0]);
      StoppedStays(Next(s, steps[0]), steps[1..]);
    }
  }

  // Progress.

  /** has_more run by itself, loading the operands of `<` in either order. */
  function PeekSteps(curFirst: bool): seq<Step> {
    if curFirst then [CallHasMore, LoadPositive, LoadCur, LoadSize]
    else [CallHasMore, LoadPositive, LoadSize, LoadCur]
  }

  function ReadSteps(): seq<Step> {
    [LockToRead, TakeByte, Unlock]
  }

  lemma Unfold(s: State, a: Step, rest: seq<Step>)
    ensures ValidRun(s, [a] + rest) <==> Enabled(s, a) && ValidRun(Next(s, a), rest)
    ensures ValidRun(s, [a] + rest) ==> After(s, [a] + rest) == After(Next(s, a), rest)
  {
    assert ([a] + rest)[1..] == rest;
  }

  lemma Two(s: State, a: Step, b: Step, s1: State, t: State)
    requires Enabled(s, a) && Next(s, a) == s1
    requires Enabled(s1, b) && Next(s1, b) == t
    ensures ValidRun(s, [a, b]) && After(s, [a, b]) == t
  {
    Unfold(s1, b, []);
    Unfold(s, a, [b]);
  }

  lemma Three(s: State, a: Step, b: Step, c: Step, s1: State, s2: State, t: State)
    requires Enabled(s, a) && Next(s, a) == s1
    requires Enabled(s1, b) && Next(s1, b) == s2
    requires Enabled(s2, c) && Next(s2, c) == t
    ensures ValidRun(s, [a, b, c]) && After(s, [a, b, c]) == t
  {
    Two(s1, b, c, s2, t);
    Unfold(s, a, [b, c]);
  }

  lemma Four(s: State, a: Step, b: Step, c: Step, d: Step, s1: State, s2: State, s3: State, t: State)
    requires Enabled(s, a) && Next(s, a) == s1
    requires Enabled(s1, b) && Next(s1, b) == s2
    requires Enabled(s2, c) && Next(s2, c) == s3
    requires Enabled(s3, d) && Next(s3, d) == t
    ensures ValidRun(s, [a, b, c, d]) && After(s, [a, b, c, d]) == t
  {
    Three(s1, b, c, d, s2, s3, t);
    Unfold(s, a, [b, c, d]);
  }

  lemma {:induction false} Concat(s: State, xs: seq<Step>, ys: seq<Step>)
    requires ValidRun(s, xs)
    ensures ValidRun(s, xs + ys) <==> ValidRun(After(s, xs), ys)
    ensures ValidRun(s, xs + ys) ==> After(s, xs + ys) == After(After(s, xs), ys)
    decreases |xs|
  {
    if xs == [] {
      assert xs + ys == ys;
    } else {
      Concat(Next(s, xs[0]), xs[1..], ys);
      assert (xs + ys)[1..] == xs[1..] + ys;
    }
  }

  /** With unread bytes and a server that is out of the way, has_more returns 1 and read_byte hands
      over the first of them; nothing else moves. */
  lemma RoundTakesOne(s: State, curFirst: bool)
    requires Inv(s) && s.consumer == Idle && s.lock == Free && s.cur < s.size
    ensures var steps := PeekSteps(curFirst) + ReadSteps();
            && ValidRun(s, steps)
            && After(s, steps) == s.(cur := s.cur + 1, delivered := s.delivered + [s.buffer[s.cur]])
  {
    PeekFinds(s, curFirst);
    ReadTakes(s.(consumer := Claimed));
    Concat(s, PeekSteps(curFirst), ReadSteps());
  }

  lemma PeekFinds(s: State, curFirst: bool)
    requires s.consumer == Idle && 0 <= s.cur < s.size
    ensures ValidRun(s, PeekSteps(curFirst))
    ensures After(s, PeekSteps(curFirst)) == s.(consumer := Claimed)
  {
    var s1, s2, t := s.(consumer := Peeking), s.(consumer := Comparing), s.(consumer := Claimed);
    if curFirst {
      Four(s, CallHasMore, LoadPositive, LoadCur, LoadSize, s1, s2, s.(consumer := HaveCur(s.cur)), t);
    } else {
      Four(s, CallHasMore, LoadPositive, LoadSize, LoadCur, s1, s2, s.(consumer := HaveSize(s.size)), t);
    }
  }

  lemma ReadTakes(s: State)
    requires s.consumer == Claimed && s.lock == Free && 0 <= s.cur < s.size <= |s.buffer|
    ensures ValidRun(s, ReadSteps())
    ensures After(s, ReadSteps())
            == s.(cur := s.cur + 1, delivered := s.delivered + [s.buffer[s.cur]], consumer := Idle)
  {
    var s1 := s.(lock := Consumer, consumer := Reading);
    var s2 := s1.(cur := s.cur + 1, delivered := s.delivered + [s.buffer[s.cur]], consumer := Done);
    Three(s, LockToRead, TakeByte, Unlock, s1, s2, s2.(lock := Free, consumer := Idle));
  }

  function Rounds(k: nat, curFirst: bool): seq<Step> {
    if k == 0 then [] else PeekSteps(curFirst) + ReadSteps() + Rounds(k - 1, curFirst)
  }

  /** Finitely many consumer rounds finish a published chunk, and then everything recv ever returned
      has been handed over. */
  lemma {:induction false} ChunkIsFinished(s: State, curFirst: bool)
    requires Inv(s) && s.consumer == Idle && (s.server == Waiting || s.server == Woken) && s.cur <= s.size
    ensures var steps := Rounds(s.size - s.cur, curFirst);
            && ValidRun(s, steps)
            && After(s, steps).delivered == s.received
            && After(s, steps).cur == s.size
    decreases s.size - s.cur
  {
    if s.cur < s.size {
      var round, rest := PeekSteps(curFirst) + ReadSteps(), Rounds(s.size - s.cur - 1, curFirst);
      var t := s.(cur := s.cur + 1, delivered := s.delivered + [s.buffer[s.cur]]);
      RoundTakesOne(s, curFirst);
      InvRun(s, round);
      ChunkIsFinished(t, curFirst);
      Concat(s, round, rest);
      assert Rounds(s.size - s.cur, curFirst) == round + rest;
    }
  }

  lemma PeekMisses(s: State, curFirst: bool)
    requires s.consumer == Idle && s.cur == s.size > 0
    ensures ValidRun(s, PeekSteps(curFirst))
    ensures After(s, PeekSteps(curFirst)) == s.(consumer := Missed)
  {
    var s1, s2, t := s.(consumer := Peeking), s.(consumer := Comparing), s.(consumer := Missed);
    if curFirst {
      Four(s, CallHasMore, LoadPositive, LoadCur, LoadSize, s1, s2, s.(consumer := HaveCur(s.cur)), t);
    } else {
      Four(s, CallHasMore, LoadPositive, LoadSize, LoadCur, s1, s2, s.(consumer := HaveSize(s.size)), t);
    }
  }

  lemma SignalReleases(s: State)
    requires s.consumer == Missed && s.lock == Free && s.server == Waiting && s.cur == s.size
    ensures ValidRun(s, [LockToSignal, Signal, Relock, Test])
    ensures After(s, [LockToSignal, Signal, Relock, Test]) == s.(consumer := Idle, server := Top)
  {
    var s1 := s.(consumer := Signalling, lock := Consumer);
    var s2 := s.(consumer := Idle, server := Woken);
    var s3 := s.(consumer := Idle, server := Testing, lock := Server);
    Four(s, LockToSignal, Signal, Relock, Test, s1, s2, s3, s.(consumer := Idle, server := Top));
  }

  /** On a drained buffer, has_more returns 0 after signalling: a waiting server is let go, finds the
      buffer drained and goes back to its loop. No wakeup is lost. */
  lemma DrainedServerIsReleased(s: State, curFirst: bool)
    requires Inv(s) && s.consumer == Idle && s.server == Waiting && s.cur == s.size
    ensures var steps := PeekSteps(curFirst) + [LockToSignal, Signal, Relock, Test];
            && ValidRun(s, steps)
            && After(s, steps) == s.(server := Top)
  {
    PeekMisses(s, curFirst);
    SignalReleases(s.(consumer := Missed));
    Concat(s, PeekSteps(curFirst), [LockToSignal, Signal, Relock, Test]);
  }

  /** A spurious return from cnd_wait while bytes are unread changes nothing. */
  lemma SpuriousWakeIsIdle(s: State)
    requires Inv(s) && s.server == Waiting && s.lock == Free && s.cur < s.size
    ensures ValidRun(s, [Wake, Relock, Test]) && After(s, [Wake, Relock, Test]) == s
  {
    Three(s, Wake, Relock, Test, s.(server := Woken), s.(server := Testing, lock := Server), s);
  }

  /** No step but a publication adds unread bytes, and taking a byte removes exactly one. */
  lemma UnreadShrinks(s: State, step: Step)
    requires Inv(s) && Enabled(s, step) && !s.server.Rewound? && step != Rewind
    ensures var s' := Next(s, step);
            s'.size - s'.cur == s.size - s.cur - (if step == TakeByte then 1 else 0)
  {
  }

  /** The lock is always given back: its holder has a step of its own, and within three such steps
      the lock is free. */
  function Distance(s: State): nat {
    if s.server.Locked? then 3 else if s.server.Rewound? then 2 else if s.server == Testing then 1
    else if s.consumer == Reading then 2 else if s.consumer == Done || s.consumer == Signalling then 1 else 0
  }

  function HolderStep(s: State): Step {
    if s.server.Locked? then Rewind else if s.server.Rewound? then Publish else if s.server == Testing then Test
    else if s.consumer == Reading then TakeByte else if s.consumer == Done then Unlock else Signal
  }

  lemma LockIsReleased(s: State)
    requires Inv(s)
    ensures s.lock == Free <==> Distance(s) == 0
    ensures s.lock != Free ==>
              && Enabled(s, HolderStep(s))
              && Distance(Next(s, HolderStep(s))) == Distance(s) - 1
  {
  }
}
