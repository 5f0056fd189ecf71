/** The Tunnel object: one method per critical section, call or clock reading of its two threads,
    each taking exactly the step of the same name in module Tunnel. */
module TunnelThreads {
  import opened Common
  import opened LossyQueue
  import opened Tunnel

  class TunnelObject {
    const bandwidth: int
    const max_queue_size: int
    var queue: seq<Packet>
    var clock: nat     // the monotone clock both threads read
    var tstart: nat
    var sender: SenderPc
    var receiver: ReceiverPc
    ghost var stream: Queue<Packet>
    ghost var sent: seq<Packet>
    ghost var cleared: seq<nat>
    ghost var iterations: nat

    ghost function View(): State
      reads this
    {
      State(bandwidth, max_queue_size, clock, tstart, sender, receiver, stream, sent, cleared, iterations)
    }

    ghost predicate Valid()
      reads this
    {
      Inv(View()) && queue == Contents(stream)
    }

    constructor (bandwidth: int, max_queue_size: int)
      ensures Valid() && View() == Start(bandwidth, max_queue_size)
    {
      this.bandwidth, this.max_queue_size := bandwidth, max_queue_size;
      queue, clock, tstart, sender, receiver := [], 0, 0, Head, Receiving;
      stream, sent, cleared, iterations := Empty(), [], [], 0;
      new;
      assert View() == Start(bandwidth, max_queue_size);
    }

    method ClockTick(ns: nat)
      requires Valid()
      modifies this`clock
      ensures Valid() && View() == Next(old(View()), Tick(ns))
    {
      clock := clock + ns;
    }

    // The sender thread.

    method SenderBegin()
      requires Valid() && Enabled(View(), Begin)
      modifies this`tstart, this`sender
      ensures Valid() && View() == Next(old(View()), Begin)
    {
      tstart, sender := clock, AtQueue;
    }

    /** lock; the empty test; then cnd_wait, or front, pop_front and unlock. */
    method SenderPop()
      requires Valid() && Enabled(View(), Pop)
      modifies this
      ensures Valid() && View() == Next(old(View()), Pop)
    {
      InvPop(View());
      if queue == [] {
        sender := Waiting;
      } else {
        sender, queue := Sending(queue[0]), queue[1..];
        stream := Take(stream);
      }
    }

    method SenderWake()
      requires Valid() && Enabled(View(), Wake)
      modifies this`sender
      ensures Valid() && View() == Next(old(View()), Wake)
    {
      sender := AtQueue;
    }

    method SenderSend()
      requires Valid() && Enabled(View(), Send)
      modifies this`sender, this`sent
      ensures Valid() && View() == Next(old(View()), Send)
    {
      InvStep(View(), Send);
      var packet := sender.packet;
      sent := sent + [packet];
      sender := Checking(|packet|);
    }

    /** The overflow check, under the lock: the queue is within its limit right after it. */
    method SenderCheck()
      requires Valid() && Enabled(View(), Check)
      modifies this
      ensures Valid() && View() == Next(old(View()), Check)
      ensures max_queue_size > 0 ==> |queue| <= max_queue_size
    {
      ghost var before := View();
      InvCheck(before);
      if max_queue_size > 0 && |queue| > max_queue_size {
        stream, cleared := Store(stream, [], |queue|), cleared + Positions(stream);
        queue := [];
      }
      sender := Timing(sender.size);
      assert View() == Next(before, Check);
    }

    /** The end time, the two rates and the call of usleep, if any. */
    method SenderPace() returns (sleep_us: nat)
      requires Valid() && Enabled(View(), Pace)
      modifies this`sender
      ensures Valid() && View() == Next(old(View()), Pace)
      ensures sender == Sleeping(clock + 1000 * sleep_us)
      ensures bandwidth <= 0 ==> sleep_us == 0
      ensures bandwidth > 0 ==> IsShare(old(sender).size, bandwidth, Elapsed(tstart, clock), sleep_us)
    {
      sleep_us := 0;
      if bandwidth > 0 {
        WidthsSuffice(sender.size, bandwidth, tstart, clock);
        var elapsed := Elapsed(tstart, clock);
        var rate_us := sender.size * 1_000_000 / bandwidth;
        if ToUnsigned(elapsed) < rate_us {
          sleep_us := (rate_us - elapsed) % 0x1_0000_0000;
        }
        RateIsShare(sender.size, bandwidth, elapsed, rate_us, sleep_us);
      }
      sender := Sleeping(clock + 1000 * sleep_us);
    }

    method SenderSleepOver()
      requires Valid() && Enabled(View(), SleepOver)
      modifies this`sender, this`iterations
      ensures Valid() && View() == Next(old(View()), SleepOver)
    {
      sender, iterations := Head, iterations + 1;
    }

    // The receiver thread.

    /** recv returned `len` bytes of `data`; only a positive length is queued. */
    method ReceiverRecv(data: seq<byte>, len: int)
      requires Valid() && receiver == Receiving && len <= |data| <= 1024
      modifies this`receiver
      ensures Valid()
      ensures len <= 0 ==> View() == old(View())
      ensures len > 0 ==> View() == Next(old(View()), Receive(data[..len])) && receiver == Got(data[..len])
    {
      if len > 0 {
        receiver := Got(data[..len]);
      }
    }

    method ReceiverPush()
      requires Valid() && Enabled(View(), Push)
      modifies this
      ensures Valid() && View() == Next(old(View()), Push)
      ensures queue == old(queue) + [old(receiver).packet]
    {
      ghost var before, packet := View(), receiver.packet;
      InvPush(before);
      queue := queue + [receiver.packet];
      stream := Store(stream, [packet], 0);
      if sender == Waiting {
        sender := AtQueue;
      }
      receiver := Receiving;
      assert View() == Next(before, Push);
    }

    // The loop of the sender thread, with the receiver and the clock at work between its actions.

    /** What Enabled looks at. */
    function Visible(): State
      reads this
    {
      State(bandwidth, max_queue_size, clock, tstart, sender, receiver, Empty(), [], [], 0)
    }

    /** A step of the receiver or the clock, if it can be made. */
    method OtherMove(move: Step)
      requires Valid()
      modifies this
      ensures Valid() && OthersWent(old(View()), View())
    {
      if Enabled(Visible(), move) {
        match move {
          case Tick(ns) => ClockTick(ns);
          case Receive(packet) => ReceiverRecv(packet, |packet|);
          case Push => ReceiverPush();
          case _ =>
        }
      }
    }

    method OthersRun(moves: seq<Step>)
      requires Valid()
      modifies this
      ensures Valid() && OthersWent(old(View()), View())
    {
      ghost var s := View();
      for i := 0 to |moves|
        invariant Valid() && OthersWent(s, View())
      {
        ghost var t := View();
        OtherMove(moves[i]);
        OthersWentTrans(s, t, View());
      }
    }

    /** From the lock to a packet in hand: cnd_wait ends at a push or for no reason. The packet is the one
        that was oldest in the queue, or the first to arrive in an empty one. */
    method TakePacket(waiting: seq<seq<Step>>) returns (taken: bool)
      requires Valid() && sender == AtQueue
      modifies this
      ensures Valid() && clock >= old(clock) && tstart == old(tstart) && sent == old(sent)
      ensures iterations == old(iterations) && cleared == old(cleared)
      ensures taken ==> sender.Sending? && stream.rd == old(stream.rd) + 1
                        && sender.packet == stream.written[old(stream.rd)]
      ensures !taken ==> stream.rd == old(stream.rd) && (sender == Waiting || sender == AtQueue)
    {
      ghost var s := View();
      SenderPop();
      taken := sender != Waiting;
      var i := 0;
      while !taken && i < |waiting|
        invariant Valid() && i <= |waiting|
        invariant clock >= old(clock) && tstart == old(tstart) && sent == old(sent)
        invariant iterations == old(iterations) && cleared == old(cleared)
        invariant taken ==> sender.Sending? && stream.rd == s.stream.rd + 1
                            && sender.packet == stream.written[s.stream.rd]
        invariant !taken ==> stream.rd == s.stream.rd && (sender == Waiting || sender == AtQueue)
      {
        OthersRun(waiting[i]);
        if sender == Waiting {
          SenderWake();
        }
        SenderPop();
        taken := sender != Waiting;
        i := i + 1;
      }
    }

    /** One turn of sender_thread. Whatever arrives meanwhile, exactly the next packet in arrival order is sent,
        and with a bandwidth the turn lasts long enough for it, within two microseconds. */
    method SenderTurn(waiting: seq<seq<Step>>, moves: seq<seq<Step>>) returns (done: bool)
      requires Valid() && sender == Head && |moves| == 5
      modifies this
      ensures Valid()
      ensures !done ==> sent == old(sent) && (sender == Waiting || sender == AtQueue)
      ensures done ==>
                && sender == Head && iterations == old(iterations) + 1
                && old(stream.rd) < |stream.written|
                && sent == old(sent) + [stream.written[old(stream.rd)]]
                && (bandwidth > 0 ==>
                      |stream.written[old(stream.rd)]| * SECOND < bandwidth * (clock - old(clock) + 2000))
    {
      SenderBegin();
      OthersRun(moves[0]);
      done := TakePacket(waiting);
      if done {
        SendAndCheck(moves[1..4]);
        SleepItOff(moves[4]);
      }
    }

    /** The packet in hand is sent, and the overflow check made. */
    method SendAndCheck(moves: seq<seq<Step>>)
      requires Valid() && sender.Sending? && |moves| == 3
      modifies this
      ensures Valid() && sender == Timing(|old(sender).packet|)
      ensures sent == old(sent) + [old(sender).packet]
      ensures clock >= old(clock) && tstart == old(tstart) && iterations == old(iterations)
      ensures old(stream.written) <= stream.written
    {
      OthersRun(moves[0]);
      SenderSend();
      CheckBetween(moves[1], moves[2]);
    }

    method CheckBetween(before: seq<Step>, after: seq<Step>)
      requires Valid() && sender.Checking?
      modifies this
      ensures Valid() && sender == Timing(old(sender).size) && sent == old(sent)
      ensures clock >= old(clock) && tstart == old(tstart) && iterations == old(iterations)
      ensures old(stream.written) <= stream.written
    {
      OthersRun(before);
      SenderCheck();
      OthersRun(after);
    }

    /** The end of a turn: the end time is read, and usleep lets the clock go on for at least that long. */
    method SleepItOff(moves: seq<Step>)
      requires Valid() && sender.Timing? && tstart <= clock
      modifies this
      ensures Valid() && sender == Head && sent == old(sent) && iterations == old(iterations) + 1
      ensures stream.rd == old(stream.rd) && old(stream.written) <= stream.written
      ensures bandwidth > 0 ==> old(sender).size * SECOND < bandwidth * (clock - old(tstart) + 2000)
    {
      ghost var size, from := sender.size, clock;
      if bandwidth > 0 {
        TurnIsLongEnough(size, bandwidth, tstart, clock);
      }
      var us := SenderPace();
      var until := sender.until;
      OthersRun(moves);
      if clock < until {
        ClockTick(until - clock);
      }
      SenderSleepOver();
      if bandwidth > 0 {
        MulMono(bandwidth, until - tstart + 2000, clock - tstart + 2000);
      }
    }
  }

  /** What the receiver and the clock leave alone, and that a push can do no more to the sender than wake it. */
  ghost predicate OthersWent(s: State, t: State) {
    && (t.sender == s.sender || (s.sender == Waiting && t.sender == AtQueue))
    && t.sent == s.sent && t.cleared == s.cleared && t.iterations == s.iterations && t.tstart == s.tstart
    && s.now <= t.now
    && t.stream.rd == s.stream.rd && t.stream.taken == s.stream.taken && s.stream.written <= t.stream.written
  }

  lemma OthersWentTrans(s: State, t: State, u: State)
    requires OthersWent(s, t) && OthersWent(t, u)
    ensures OthersWent(s, u)
  {
  }
}
