/** Progress of the two-thread handoff over every run: any mix of steps of both threads, with spurious
    wakeups and relocks between any two loads. */
module HandoffProgress {
  import opened Common
  import opened Handoff

  /** The server is in the wait loop of a published chunk. */
  predicate InWaitLoop(s: State) {
    s.server == Testing || s.server == Waiting || s.server == Woken
  }

  /** The consumer holds a failed test, or a load from before the publication that will make it fail. */
  predicate Misled(s: State) {
    match s.consumer
    case HaveCur(c) => c >= s.size
    case HaveSize(z) => s.cur >= z
    case Missed => true
    case Signalling => true
    case _ => false
  }

  function Takes(steps: seq<Step>): nat {
    if steps == [] then 0 else (if steps[0] == TakeByte then 1 else 0) + Takes(steps[1..])
  }

  function ConsumerSteps(steps: seq<Step>): nat {
    if steps == [] then 0 else (if IsServerStep(steps[0]) then 0 else 1) + ConsumerSteps(steps[1..])
  }

  /** How far the consumer is in the seven steps of one round, whose sixth takes the byte. A misled
      consumer has up to three steps to go before its next round begins. */
  function Phase(s: State): int {
    match s.consumer
    case Peeking => 1
    case Comparing => 2
    case HaveCur(_) => if Misled(s) then -3 else 3
    case HaveSize(_) => if Misled(s) then -3 else 3
    case Missed => -2
    case Signalling => -1
    case Claimed => 4
    case Reading => 5
    case Done => -1
    case Idle => 0
  }

  /** `t` is `s` after some bytes of the published chunk were taken, with the server still waiting for
      the rest. */
  predicate Draining(s: State, t: State)
    requires 0 <= s.cur <= |s.buffer|
  {
    && InWaitLoop(t)
    && t.buffer == s.buffer && t.size == s.size && t.received == s.received && t.link == s.link
    && s.cur <= t.cur <= |s.buffer|
    && t.delivered == s.delivered + s.buffer[s.cur..t.cur]
  }

  lemma DrainingStep(s: State, step: Step)
    requires Inv(s) && Enabled(s, step) && InWaitLoop(s) && s.cur < s.size
    ensures Draining(s, Next(s, step))
    ensures Next(s, step).cur == s.cur + (if step == TakeByte then 1 else 0)
  {
  }

  lemma PhaseStep(s: State, step: Step)
    requires Inv(s) && Enabled(s, step) && InWaitLoop(s) && s.cur < s.size
    ensures !Misled(s) ==> !Misled(Next(s, step))
    ensures 7 * Next(s, step).cur + Phase(Next(s, step))
            == 7 * s.cur + Phase(s) + (if IsServerStep(step) then 0 else 1)
  {
  }

  lemma DrainingTrans(s: State, t: State, u: State)
    requires 0 <= s.cur <= |s.buffer| && 0 <= t.cur <= |t.buffer| && Draining(s, t) && Draining(t, u)
    ensures Draining(s, u)
  {
    assert s.buffer[s.cur..t.cur] + s.buffer[t.cur..u.cur] == s.buffer[s.cur..u.cur];
  }

  /** Over every run with fewer takes than there are unread bytes the server stays in its wait loop and
      the published chunk stays as it is; the consumer moves through it by exactly its takes. A consumer
      that is not misled never is, and each consumer step is one seventh of a round. */
  lemma {:induction false} ServerWaitsForTheChunk(s: State, steps: seq<Step>)
    requires Inv(s) && InWaitLoop(s) && ValidRun(s, steps) && Takes(steps) < s.size - s.cur
    ensures var t := After(s, steps);
            && Inv(t) && Draining(s, t)
            && t.cur == s.cur + Takes(steps)
            && (!Misled(s) ==> !Misled(t))
            && 7 * t.cur + Phase(t) == 7 * s.cur + Phase(s) + ConsumerSteps(steps)
    decreases |steps|
  {
    if steps == [] {
      assert s.buffer[s.cur..s.cur] == [];
    } else {
      var t := Next(s, steps[0]);
      InvStep(s, steps[0]);
      DrainingStep(s, steps[0]);
      PhaseStep(s, steps[0]);
      ServerWaitsForTheChunk(t, steps[1..]);
      DrainingTrans(s, t, After(t, steps[1..]));
    }
  }

  /** In every run the take of the last unread byte leaves everything recv ever returned handed over. */
  lemma LastTakeCompletes(s: State, steps: seq<Step>)
    requires Inv(s) && InWaitLoop(s) && ValidRun(s, steps) && Takes(steps) == s.size - s.cur - 1
    requires Enabled(After(s, steps), TakeByte)
    ensures var t := Next(After(s, steps), TakeByte);
            t.delivered == t.received == s.received && t.cur == t.size == s.size
  {
    ServerWaitsForTheChunk(s, steps);
    LastTake(After(s, steps));
  }

  lemma LastTake(s: State)
    requires Inv(s) && InWaitLoop(s) && s.cur == s.size - 1 && Enabled(s, TakeByte)
    ensures var t := Next(s, TakeByte);
            t.delivered == t.received == s.received && t.cur == t.size == s.size
  {
    assert s.buffer[s.cur..s.size] == [s.buffer[s.cur]];
  }

  /** Bounded progress in every run: a consumer that makes seven steps for each unread byte, less the
      part of the round already behind it, has taken the whole chunk. */
  lemma ChunkIsFinishedInEveryRun(s: State, steps: seq<Step>)
    requires Inv(s) && InWaitLoop(s) && ValidRun(s, steps)
    requires ConsumerSteps(steps) >= 7 * (s.size - s.cur) - 1 - Phase(s)
    ensures Takes(steps) >= s.size - s.cur
  {
    if Takes(steps) < s.size - s.cur {
      ServerWaitsForTheChunk(s, steps);
    }
  }

  /** The number of consumer steps to the signal when the buffer is drained. */
  function ToSignal(consumer: ConsumerPc): nat {
    match consumer
    case Done => 7
    case Idle => 6
    case Peeking => 5
    case Comparing => 4
    case HaveCur(_) => 3
    case HaveSize(_) => 3
    case Missed => 2
    case _ => 1
  }

  lemma DrainedStep(s: State, step: Step)
    requires Inv(s) && s.server == Waiting && s.cur == s.size && Enabled(s, step) && step != Wake && step != Signal
    ensures var t := Next(s, step);
            && t.server == Waiting && t.cur == t.size && t.delivered == s.delivered
            && ToSignal(t.consumer) == ToSignal(s.consumer) - 1
  {
  }

  /** A server that waits on a drained buffer is released by nothing but a signal or a spurious wakeup,
      and in every run the signal comes within seven steps: no wakeup is lost. */
  lemma {:induction false} SignalComes(s: State, steps: seq<Step>)
    requires Inv(s) && s.server == Waiting && s.cur == s.size && ValidRun(s, steps)
    requires forall k :: 0 <= k < |steps| ==> steps[k] != Wake && steps[k] != Signal
    ensures var t := After(s, steps);
            && t.server == Waiting && t.cur == t.size && t.delivered == s.delivered
            && |steps| == ToSignal(s.consumer) - ToSignal(t.consumer) < 7
    decreases |steps|
  {
    if steps != [] {
      var t := Next(s, steps[0]);
      InvStep(s, steps[0]);
      DrainedStep(s, steps[0]);
      SignalComes(t, steps[1..]);
    }
  }

  /** Once released on a drained buffer the server can only go on to its loop head, whatever happens
      before its test. */
  lemma {:induction false} ReleasedServerLeaves(s: State, steps: seq<Step>)
    requires Inv(s) && (s.server == Woken || s.server == Testing) && s.cur == s.size && ValidRun(s, steps)
    requires forall k :: 0 <= k < |steps| ==> steps[k] != Test
    ensures var t := After(s, steps);
            && (t.server == Woken || t.server == Testing)
            && t.cur == t.size && t.delivered == t.received == s.received
            && (Enabled(t, Test) ==> Next(t, Test).server == Top)
    decreases |steps|
  {
    if steps != [] {
      InvStep(s, steps[0]);
      ReleasedServerLeaves(Next(s, steps[0]), steps[1..]);
    }
  }

  /** The consumer's own next step. */
  function ConsumerStep(s: State, curFirst: bool): Step {
    match s.consumer
    case Idle => CallHasMore
    case Peeking => LoadPositive
    case Comparing => if curFirst then LoadCur else LoadSize
    case HaveCur(_) => LoadSize
    case HaveSize(_) => LoadCur
    case Claimed => LockToRead
    case Missed => LockToSignal
    case Signalling => Signal
    case Reading => TakeByte
    case Done => Unlock
  }

  /** Nobody is stuck: the consumer can always move unless the server holds the lock, and then the
      server can; and it is rid of the lock after at most three steps of its own. */
  lemma NobodyIsStuck(s: State, curFirst: bool)
    requires Inv(s)
    ensures s.lock != Server ==> Enabled(s, ConsumerStep(s, curFirst))
    ensures s.lock == Server ==> Enabled(s, HolderStep(s)) && Distance(s) <= 3
                                 && Distance(Next(s, HolderStep(s))) == Distance(s) - 1
  {
    LockIsReleased(s);
  }
}
