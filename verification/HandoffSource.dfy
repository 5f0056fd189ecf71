/** The socket object of the three handoff sources. Each method is one atomic action of the server
    thread or of the pipeline thread on the shared fields, and takes exactly the step of the same
    name in module Handoff. */
module HandoffSource {
  import opened Common
  import opened Handoff
  import opened HandoffProgress

  class SocketSource {
    const flavour: Flavour
    const buffer: array<byte>
    var connected: bool
    var cur_read: int
    var buffer_size: int
    var lock: Owner
    var server: ServerPc
    var consumer: ConsumerPc
    ghost var received: seq<byte>
    ghost var delivered: seq<byte>
    ghost var fillers: nat

    ghost function View(): State
      reads this, buffer
    {
      State(flavour, connected, buffer[..], cur_read, buffer_size, lock, server, consumer, received, delivered, fillers)
    }

    ghost predicate Valid()
      reads this, buffer
    {
      Inv(View())
    }

    constructor (flavour: Flavour)
      ensures Valid() && fresh(buffer) && this.flavour == flavour
      ensures View() == Start(flavour, buffer[..])
    {
      this.flavour := flavour;
      buffer := new byte[BUFFER_SIZE];
      connected, cur_read, buffer_size := flavour == Udp, 0, 0;
      lock, server, consumer := Free, Top, Idle;
      received, delivered, fillers := [], [], 0;
    }

    // The server thread.

    method ServerStop()
      requires Valid() && Enabled(View(), Stop)
      modifies this`server
      ensures Valid() && View() == Next(old(View()), Stop)
    {
      InvStep(View(), Stop);
      server := Stopped;
    }

    /** accept, or socket and connect: `ok` is its verdict, `open` whether a descriptor stays. */
    method ServerConnect(ok: bool, open: bool)
      requires Valid() && Enabled(View(), Connect(ok, open))
      modifies this`server, this`connected
      ensures Valid() && View() == Next(old(View()), Connect(ok, open))
      ensures connected == open && (server == Receiving <==> ok)
    {
      InvStep(View(), Connect(ok, open));
      connected := open;
      if ok {
        server := Receiving;
      }
    }

    method ServerStartRecv()
      requires Valid() && Enabled(View(), StartRecv)
      modifies this`server
      ensures Valid() && View() == Next(old(View()), StartRecv)
    {
      InvStep(View(), StartRecv);
      server := Receiving;
    }

    /** The kernel stores one byte while recv is in progress. */
    method KernelStore(at: nat, b: byte)
      requires Valid() && Enabled(View(), Fill(at, b))
      modifies buffer
      ensures Valid() && View() == Next(old(View()), Fill(at, b))
      ensures buffer[..] == old(buffer[..])[at := b]
    {
      InvStep(View(), Fill(at, b));
      buffer[at] := b;
    }

    method ServerRecvReturns(n: int)
      requires Valid() && Enabled(View(), RecvReturns(n))
      modifies this`server, this`connected, this`received
      ensures Valid() && View() == Next(old(View()), RecvReturns(n))
      ensures n <= 0 ==> server == Top && received == old(received) && (connected <==> flavour == Udp)
      ensures n > 0 ==> server == Received(n) && received == old(received) + buffer[..n] && connected
    {
      InvStep(View(), RecvReturns(n));
      if n == -1 || n == 0 {
        if flavour != Udp {
          connected := false;
        }
        server := Top;
      } else {
        received := received + buffer[..n];
        server := Received(n);
      }
    }

    method ServerLock()
      requires Valid() && Enabled(View(), Lock)
      modifies this`server, this`lock
      ensures Valid() && View() == Next(old(View()), Lock)
    {
      InvStep(View(), Lock);
      lock, server := Server, Locked(server.n);
    }

    method ServerRewind()
      requires Valid() && Enabled(View(), Rewind)
      modifies this`server, this`cur_read
      ensures Valid() && View() == Next(old(View()), Rewind)
    {
      InvStep(View(), Rewind);
      cur_read, server := 0, Rewound(server.n);
    }

    method ServerPublish()
      requires Valid() && Enabled(View(), Publish)
      modifies this`server, this`buffer_size
      ensures Valid() && View() == Next(old(View()), Publish)
    {
      InvStep(View(), Publish);
      buffer_size, server := server.n, Testing;
    }

    /** The while condition: cnd_wait gives the lock up, and so does leaving the loop. */
    method ServerTest()
      requires Valid() && Enabled(View(), Test)
      modifies this`server, this`lock
      ensures Valid() && View() == Next(old(View()), Test)
    {
      InvStep(View(), Test);
      if cur_read < buffer_size {
        server := Waiting;
      } else {
        server := Top;
      }
      lock := Free;
    }

    method ServerWake()
      requires Valid() && Enabled(View(), Wake)
      modifies this`server
      ensures Valid() && View() == Next(old(View()), Wake)
    {
      InvStep(View(), Wake);
      server := Woken;
    }

    method ServerRelock()
      requires Valid() && Enabled(View(), Relock)
      modifies this`server, this`lock
      ensures Valid() && View() == Next(old(View()), Relock)
    {
      InvStep(View(), Relock);
      lock, server := Server, Testing;
    }

    // The pipeline thread: has_more.

    method HasMoreEnter()
      requires Valid() && Enabled(View(), CallHasMore)
      modifies this`consumer
      ensures Valid() && View() == Next(old(View()), CallHasMore)
    {
      InvStep(View(), CallHasMore);
      consumer := Peeking;
    }

    method PeekPositive()
      requires Valid() && Enabled(View(), LoadPositive)
      modifies this`consumer
      ensures Valid() && View() == Next(old(View()), LoadPositive)
    {
      InvStep(View(), LoadPositive);
      if buffer_size > 0 {
        consumer := Comparing;
      } else {
        consumer := Missed;
      }
    }

    method PeekCur() returns (claimed: bool)
      requires Valid() && Enabled(View(), LoadCur)
      modifies this`consumer
      ensures Valid() && View() == Next(old(View()), LoadCur)
      ensures claimed <==> consumer == Claimed
    {
      InvStep(View(), LoadCur);
      claimed := consumer.HaveSize? && cur_read < consumer.z;
      consumer := if consumer == Comparing then HaveCur(cur_read) else if claimed then Claimed else Missed;
    }

    method PeekSize() returns (claimed: bool)
      requires Valid() && Enabled(View(), LoadSize)
      modifies this`consumer
      ensures Valid() && View() == Next(old(View()), LoadSize)
      ensures claimed <==> consumer == Claimed
    {
      InvStep(View(), LoadSize);
      claimed := consumer.HaveCur? && consumer.c < buffer_size;
      consumer := if consumer == Comparing then HaveSize(buffer_size) else if claimed then Claimed else Missed;
    }

    method HasMoreLock()
      requires Valid() && Enabled(View(), LockToSignal)
      modifies this`consumer, this`lock
      ensures Valid() && View() == Next(old(View()), LockToSignal)
    {
      InvStep(View(), LockToSignal);
      lock, consumer := Consumer, Signalling;
    }

    method HasMoreSignal()
      requires Valid() && Enabled(View(), Signal)
      modifies this`consumer, this`lock, this`server
      ensures Valid() && View() == Next(old(View()), Signal)
    {
      InvStep(View(), Signal);
      if server == Waiting {
        server := Woken;
      }
      lock, consumer := Free, Idle;
    }

    // The pipeline thread: read_byte.

    method ReadByteLock()
      requires Valid() && Enabled(View(), LockToRead)
      modifies this`consumer, this`lock
      ensures Valid() && View() == Next(old(View()), LockToRead)
    {
      InvStep(View(), LockToRead);
      lock, consumer := Consumer, Reading;
    }

    /** The locked section of read_byte. From a state the threads can reach, `b` is the next byte of
        the stream recv returned and the filler branch is not taken. */
    method ReadByte() returns (b: byte)
      requires Enabled(View(), TakeByte) && 0 <= cur_read && buffer_size <= buffer.Length
      modifies this`server, this`consumer, this`cur_read, this`delivered, this`fillers
      ensures View() == Next(old(View()), TakeByte)
      ensures old(cur_read) >= buffer_size ==> b == 0 && delivered == old(delivered) && server != Waiting
      ensures old(Valid()) ==>
                && Valid()
                && |old(delivered)| < |received|
                && b == received[|old(delivered)|]
                && delivered == old(delivered) + [b]
    {
      if Inv(View()) {
        TakeGives(View());
      }
      b := TakeOrFill();
    }

    method TakeOrFill() returns (b: byte)
      requires Enabled(View(), TakeByte) && 0 <= cur_read && buffer_size <= buffer.Length
      modifies this`server, this`consumer, this`cur_read, this`delivered, this`fillers
      ensures View() == Next(old(View()), TakeByte)
      ensures old(cur_read) >= buffer_size ==> b == 0 && delivered == old(delivered) && server != Waiting
      ensures old(cur_read) < buffer_size ==> b == buffer[old(cur_read)] && delivered == old(delivered) + [b]
    {
      if cur_read >= buffer_size {
        if server == Waiting {
          server := Woken;
        }
        fillers := fillers + 1;
        b := 0;
      } else {
        b := buffer[cur_read];
        delivered := delivered + [b];
        cur_read := cur_read + 1;
      }
      consumer := Done;
    }

    method ReadByteUnlock()
      requires Valid() && Enabled(View(), Unlock)
      modifies this`consumer, this`lock
      ensures Valid() && View() == Next(old(View()), Unlock)
    {
      InvStep(View(), Unlock);
      lock, consumer := Free, Idle;
    }

    // The C functions, with the other thread at work between their atomic actions.

    /** What Enabled looks at. */
    function Visible(): State
      reads this, buffer
    {
      State(flavour, connected, buffer[..], cur_read, buffer_size, lock, server, consumer, [], [], 0)
    }

    /** One action of the server thread. */
    method ServerMove(step: Step)
      requires Valid() && IsServerStep(step) && Enabled(View(), step)
      modifies this, buffer
      ensures Valid() && View() == Next(old(View()), step)
    {
      match step {
        case Stop => ServerStop();
        case Connect(ok, open) => ServerConnect(ok, open);
        case StartRecv => ServerStartRecv();
        case Fill(at, b) => KernelStore(at, b);
        case RecvReturns(n) => ServerRecvReturns(n);
        case Lock => ServerLock();
        case Rewind => ServerRewind();
        case Publish => ServerPublish();
        case Test => ServerTest();
        case Wake => ServerWake();
        case Relock => ServerRelock();
      }
    }

    /** One action of the pipeline thread. */
    method ConsumerMove(step: Step)
      requires Valid() && !IsServerStep(step) && Enabled(View(), step)
      modifies this
      ensures Valid() && View() == Next(old(View()), step)
    {
      match step {
        case CallHasMore => HasMoreEnter();
        case LoadPositive => PeekPositive();
        case LoadCur => var _ := PeekCur();
        case LoadSize => var _ := PeekSize();
        case LockToSignal => HasMoreLock();
        case Signal => HasMoreSignal();
        case LockToRead => ReadByteLock();
        case TakeByte => var _ := ReadByte();
        case Unlock => ReadByteUnlock();
      }
    }

    /** The server thread makes those of `moves` that it can. */
    method ServerInterferes(moves: seq<Step>)
      requires Valid()
      modifies this, buffer
      ensures Valid() && ServerWent(old(View()), View())
    {
      ghost var s := View();
      for i := 0 to |moves|
        invariant Valid() && ServerWent(s, View())
      {
        if IsServerStep(moves[i]) && Enabled(Visible(), moves[i]) {
          ghost var t := View();
          ServerMove(moves[i]);
          ServerWentStep(t, moves[i]);
          ServerWentTrans(s, t, View());
        }
      }
    }

    /** mtx_lock of the pipeline thread: the server, if it has the lock, goes on until it gives it back. */
    method AwaitLock()
      requires Valid() && (consumer == Missed || consumer == Claimed)
      modifies this, buffer
      ensures Valid() && ServerWent(old(View()), View()) && lock == Free
    {
      ghost var s := View();
      while lock != Free
        invariant Valid() && ServerWent(s, View())
        decreases Distance(View())
      {
        ghost var t := View();
        LockIsReleased(t);
        var step := HolderStep(Visible());
        ServerMove(step);
        ServerWentStep(t, step);
        ServerWentTrans(s, t, View());
      }
    }

    /** The unlocked test of has_more, its operands loaded in either order. */
    method Peek(curFirst: bool, moves: seq<seq<Step>>) returns (more: bool)
      requires Valid() && consumer == Idle && |moves| == 4
      modifies this, buffer
      ensures Valid() && consumer == (if more then Claimed else Missed)
      ensures delivered == old(delivered) && old(received) <= received
      ensures old(InWaitLoop(View()) && cur_read < buffer_size) ==>
                more && InWaitLoop(View()) && cur_read == old(cur_read) && received == old(received)
    {
      HasMoreEnter();
      ServerInterferes(moves[0]);
      PeekPositive();
      more := false;
      if consumer == Comparing {
        ServerInterferes(moves[1]);
        more := Compare(curFirst, moves[2]);
      }
      ServerInterferes(moves[3]);
    }

    method Compare(curFirst: bool, moves: seq<Step>) returns (more: bool)
      requires Valid() && consumer == Comparing
      modifies this, buffer
      ensures Valid() && consumer == (if more then Claimed else Missed)
      ensures delivered == old(delivered) && old(received) <= received
      ensures old(InWaitLoop(View()) && cur_read < buffer_size) ==>
                && more && InWaitLoop(View()) && received == old(received)
                && cur_read == old(cur_read) && buffer_size == old(buffer_size)
    {
      if curFirst {
        var _ := PeekCur();
        ServerInterferes(moves);
        more := PeekSize();
      } else {
        var _ := PeekSize();
        ServerInterferes(moves);
        more := PeekCur();
      }
    }

    /** The locked signal of has_more: no server is left waiting. */
    method SignalServer(moves: seq<Step>)
      requires Valid() && consumer == Missed
      modifies this, buffer
      ensures Valid() && consumer == Idle && server != Waiting
      ensures delivered == old(delivered) && old(received) <= received
    {
      AwaitLock();
      HasMoreLock();
      ServerInterferes(moves);
      HasMoreSignal();
    }

    /** tcp_has_more_mt, udp_has_more, tcp_has_more; `moves` is what the server does before each action.
        With an unread byte in a chunk the server waits for, it returns 1 and nothing has moved; when it
        returns 0, no server is left waiting. */
    method HasMore(curFirst: bool, moves: seq<seq<Step>>, locked: seq<Step>) returns (more: bool)
      requires Valid() && consumer == Idle && |moves| == 4
      modifies this, buffer
      ensures Valid() && consumer == (if more then Claimed else Idle)
      ensures delivered == old(delivered) && old(received) <= received
      ensures !more ==> server != Waiting
      ensures old(InWaitLoop(View()) && cur_read < buffer_size) ==>
                more && InWaitLoop(View()) && cur_read == old(cur_read) && received == old(received)
    {
      more := Peek(curFirst, moves);
      if !more {
        SignalServer(locked);
      }
    }

    /** tcp_read_byte_mt, udp_read_byte, tcp_read_byte, called after has_more returned 1: the byte is the
        next one that recv had already returned by then, whatever the server does meanwhile. */
    method ReadNextByte(waiting: seq<Step>, locked: seq<Step>, taken: seq<Step>) returns (b: byte)
      requires Valid() && consumer == Claimed
      modifies this, buffer
      ensures Valid() && consumer == Idle
      ensures |old(delivered)| < |old(received)| && old(received) <= received
      ensures b == old(received)[|old(delivered)|]
      ensures delivered == old(delivered) + [b]
    {
      ClaimIsBacked(View());
      ServerInterferes(waiting);
      AwaitLock();
      ReadByteLock();
      b := TakeAndUnlock(locked, taken);
    }

    method TakeAndUnlock(locked: seq<Step>, taken: seq<Step>) returns (b: byte)
      requires Valid() && consumer == Reading
      modifies this, buffer
      ensures Valid() && consumer == Idle && old(received) <= received
      ensures |old(delivered)| < |received| && b == received[|old(delivered)|]
      ensures delivered == old(delivered) + [b]
    {
      ServerInterferes(locked);
      b := ReadByte();
      ServerInterferes(taken);
      ReadByteUnlock();
    }

    /** The pipeline thread makes those of `moves` that it can. */
    method ConsumerInterferes(moves: seq<Step>)
      requires Valid()
      modifies this
      ensures Valid() && ConsumerWent(old(View()), View())
    {
      ghost var s := View();
      for i := 0 to |moves|
        invariant Valid() && ConsumerWent(s, View())
      {
        if !IsServerStep(moves[i]) && Enabled(Visible(), moves[i]) {
          ghost var t := View();
          ConsumerMove(moves[i]);
          ConsumerWentStep(t, moves[i]);
        }
      }
    }

    /** mtx_lock of the server thread. */
    method ServerAwaitsLock()
      requires Valid() && server.Received?
      modifies this
      ensures Valid() && ConsumerWent(old(View()), View()) && lock == Free
    {
      ghost var s := View();
      while lock != Free
        invariant Valid() && ConsumerWent(s, View())
        decreases Distance(View())
      {
        ghost var t := View();
        LockIsReleased(t);
        var step := HolderStep(Visible());
        ConsumerMove(step);
        ConsumerWentStep(t, step);
      }
    }

    /** The two stores of the publication and the first test. */
    method PublishChunk(moves: seq<seq<Step>>)
      requires Valid() && server.Received? && |moves| == 4
      modifies this
      ensures Valid() && server == Waiting && received == old(received)
    {
      ConsumerInterferes(moves[0]);
      ServerAwaitsLock();
      ServerLock();
      ConsumerInterferes(moves[1]);
      ServerRewind();
      PublishAndTest(moves[2], moves[3]);
    }

    method PublishAndTest(rewound: seq<Step>, published: seq<Step>)
      requires Valid() && server.Rewound?
      modifies this
      ensures Valid() && server == Waiting && received == old(received)
    {
      ConsumerInterferes(rewound);
      ServerPublish();
      ConsumerInterferes(published);
      ServerTest();
    }

    /** During the wait: a step of the pipeline thread, or a return from cnd_wait for no reason. */
    method WhileWaiting(move: Step)
      requires Valid() && (server == Waiting || server == Woken)
      modifies this
      ensures Valid() && received == old(received) && (server == Waiting || server == Woken)
    {
      if Enabled(Visible(), move) {
        ghost var s := View();
        if move == Wake {
          ServerWake();
        } else if !IsServerStep(move) {
          ConsumerMove(move);
          ConsumerWentStep(s, move);
        }
      }
    }

    /** A woken server takes the lock and tests again: it leaves only if all has been handed over. */
    method TestAgain()
      requires Valid() && server == Woken && lock == Free
      modifies this
      ensures Valid() && received == old(received)
      ensures server == Waiting || (server == Top && delivered == received)
    {
      ServerRelock();
      ServerTest();
    }

    /** The critical section of tcp_server and udp_server: a received chunk is published, and the server
        leaves its wait loop only when every byte recv returned has been handed over. `waiting` is what
        happens during the wait, and after which of it a woken server gets to run; when it ends first,
        the server still waits. */
    method ServeChunk(moves: seq<seq<Step>>, waiting: seq<(Step, bool)>) returns (left: bool)
      requires Valid() && server.Received? && |moves| == 4
      modifies this
      ensures Valid() && received == old(received)
      ensures left ==> server == Top && delivered == received
      ensures !left ==> server == Waiting || server == Woken
    {
      PublishChunk(moves);
      for i := 0 to |waiting|
        invariant Valid() && received == old(received)
        invariant server == Waiting || server == Woken || (server == Top && delivered == received)
      {
        if server != Top {
          WhileWaiting(waiting[i].0);
          if waiting[i].1 && server == Woken && lock == Free {
            TestAgain();
          }
        }
      }
      left := server == Top;
    }
  }

  lemma ClaimIsBacked(s: State)
    requires Inv(s) && s.consumer == Claimed
    ensures |s.delivered| < |s.received|
  {
  }

  lemma TakeGives(s: State)
    requires Inv(s) && Enabled(s, TakeByte)
    ensures Inv(Next(s, TakeByte)) && s.cur < s.size
    ensures |s.delivered| < |s.received| && s.buffer[s.cur] == s.received[|s.delivered|]
  {
    InvStep(s, TakeByte);
  }

  /** What the server thread leaves alone, and that it waits for a published chunk. */
  ghost predicate ServerWent(s: State, t: State) {
    && t.consumer == s.consumer
    && t.delivered == s.delivered && s.received <= t.received && t.fillers == s.fillers
    && (s.lock == Consumer <==> t.lock == Consumer)
    && (InWaitLoop(s) && s.cur < s.size ==>
          InWaitLoop(t) && t.cur == s.cur && t.size == s.size && t.received == s.received)
  }

  lemma ServerWentStep(s: State, step: Step)
    requires Inv(s) && IsServerStep(step) && Enabled(s, step)
    ensures ServerWent(s, Next(s, step))
  {
  }

  lemma ServerWentTrans(s: State, t: State, u: State)
    requires ServerWent(s, t) && ServerWent(t, u)
    ensures ServerWent(s, u)
  {
  }

  /** What the pipeline thread leaves alone, and that it can do no more to the server than wake it. */
  ghost predicate ConsumerWent(s: State, t: State) {
    && t.received == s.received && t.buffer == s.buffer && t.size == s.size && s.delivered <= t.delivered
    && (t.server == s.server || (s.server == Waiting && t.server == Woken))
    && (s.lock == Server <==> t.lock == Server) && (s.lock == Server ==> t.cur == s.cur)
  }

  lemma ConsumerWentStep(s: State, step: Step)
    requires Inv(s) && !IsServerStep(step) && Enabled(s, step)
    ensures ConsumerWent(s, Next(s, step))
  {
  }
}
