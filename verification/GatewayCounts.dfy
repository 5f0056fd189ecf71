/** The counters of every run of the pipeline, against the list of its steps and its log: the load, and the
    packets, bytes and drops of each port. */
module GatewayCounts {
  import opened Common
  import opened SecurityPolicies
  import opened Gateway
  import opened GatewayRuns
  import opened GatewayTheorems
  import opened GatewayConfig
  import Perf

  // The load.

  function Spins(steps: seq<Step>): nat {
    if steps == [] then 0 else Spins(steps[..|steps| - 1]) + (if steps[|steps| - 1].DoSpin? then 1 else 0)
  }

  /** A spin, after these steps, in which a source that they hooked yields a byte. */
  ghost predicate IsBusy(steps: seq<Step>, step: Step) {
    step.DoSpin? && exists i :: 0 <= i < |step.arrivals| && SlotHooked(steps, i) && step.arrivals[i] != []
  }

  /** The time spent in the busy spins. */
  ghost function BusyTime(steps: seq<Step>): nat
    requires AllPossible(steps)
  {
    if steps == [] then 0 else
    var before, last := steps[..|steps| - 1], steps[|steps| - 1];
    BusyTime(before) + (if IsBusy(before, last) then last.clock.tend - last.clock.tstart else 0)
  }

  lemma BusyMore(steps: seq<Step>, step: Step)
    requires AllPossible(steps) && Possible(step)
    ensures Spins(steps + [step]) == Spins(steps) + (if step.DoSpin? then 1 else 0)
    ensures BusyTime(steps + [step])
            == BusyTime(steps) + (if IsBusy(steps, step) then step.clock.tend - step.clock.tstart else 0)
  {
    assert (steps + [step])[..|steps|] == steps;
  }

  lemma StepLoads<P>(g: Gw<P>, steps: seq<Step>, start: bool, step: Step)
    requires ConfiguredBy(g, steps, start) && Possible(step) && AllPossible(steps)
    requires g.perf.exec.total == Spins(steps) && g.perf.exec.loadUs == BusyTime(steps)
    ensures var g' := Do(g, step);
            g'.perf.exec.total == Spins(steps + [step]) && g'.perf.exec.loadUs == BusyTime(steps + [step])
  {
    BusyMore(steps, step);
    if step.DoSpin? {
      TurnsTiming(g, step.arrivals, MAX_SOURCES);
      forall i | 0 <= i < MAX_SOURCES ensures g.sources[i].connected <==> SlotHooked(steps, i) {
        assert SourceAs(g.sources[i], steps, i);
      }
      assert Loaded(g, step.arrivals, MAX_SOURCES) <==> IsBusy(steps, step);
    }
  }

  lemma {:induction false} RunLoads<P>(parser: Parser<P>, start: bool, steps: seq<Step>)
    requires AllPossible(steps)
    ensures var exec := Reached(parser, start, steps).perf.exec;
            exec.total == Spins(steps) && exec.loadUs == BusyTime(steps)
  {
    if steps != [] {
      var before, step := steps[..|steps| - 1], steps[|steps| - 1];
      RunLoads(parser, start, before);
      RunIsConfigured(parser, start, before);
      StepLoads(Reached(parser, start, before), before, start, step);
      assert before + [step] == steps;
    }
  }

  /** Over every run the turns counted are the spins, and the load reported and still to be reported is the time
      spent in exactly those spins in which a hooked source yielded a byte. */
  lemma LoadIsBusyTime<P>(parser: Parser<P>, start: bool, steps: seq<Step>)
    requires AllPossible(steps)
    ensures var perf := Reached(parser, start, steps).perf;
            var t := Perf.Totals(perf.reports).exec;
            && perf.exec.total == Spins(steps) && perf.exec.loadUs == BusyTime(steps)
            && t.count + (perf.exec.total - perf.exec.lastTotal) == Spins(steps)
            && t.loadUs + (perf.exec.loadUs - perf.exec.lastLoadUs) == BusyTime(steps)
  {
    RunLoads(parser, start, steps);
    RunAccounted(Init(parser, start), steps);
  }

  /** A report is due in a spin that ends at least five seconds after the last one; it is then made, with that
      spin in its load; and no other step makes one. */
  lemma ReportsWhenDue<P>(parser: Parser<P>, start: bool, before: seq<Step>, step: Step)
    requires AllPossible(before) && Possible(step)
    ensures var perf, perf' := Reached(parser, start, before).perf, Reached(parser, start, before + [step]).perf;
            var t := Perf.Totals(perf'.reports).exec;
            if step.DoSpin? && step.clock.now - perf.last >= 5_000_000
            then && |perf'.reports| == |perf.reports| + 1 && perf.reports <= perf'.reports
                 && perf'.last == step.clock.now
                 && t.loadUs == BusyTime(before + [step]) && t.count == Spins(before + [step])
            else perf'.reports == perf.reports && perf'.last == perf.last
  {
    var g := Reached(parser, start, before);
    assert (before + [step])[..|before|] == before;
    RunLoads(parser, start, before + [step]);
    RunAccounted(Init(parser, start), before + [step]);
    if step.DoSpin? {
      TurnsTiming(g, step.arrivals, MAX_SOURCES);
    }
  }

  // The ports.

  /** What a frame takes on the wire: its payload, the header and the checksum. */
  function Size(mav: Mavlink): nat {
    mav.len + 12
  }

  function SizeOf(frames: seq<Mavlink>): nat {
    if frames == [] then 0 else SizeOf(frames[..|frames| - 1]) + Size(frames[|frames| - 1])
  }

  /** The bytes that the route function of sink `j` was given. */
  function SentBytes(log: seq<Event>, j: nat): nat {
    if log == [] then 0 else
    SentBytes(log[..|log| - 1], j) + (if Is(log[|log| - 1], DeliveredTo(j)) then Size(log[|log| - 1].sent) else 0)
  }

  /** The counts of a unit, without the marks of its last query. */
  predicate SameCounts(a: Perf.PortUnit, b: Perf.PortUnit) {
    a.prevSeq == b.prevSeq && a.succ == b.succ && a.drop == b.drop && a.bytes == b.bytes
  }

  /** Each source has counted the frames parsed from it, as they were before any transform, and each sink the
      messages it was sent, as its transform made them. */
  ghost predicate Tallied<P>(g: Gw<P>)
    requires Shaped(g)
  {
    && (forall i :: 0 <= i < MAX_SOURCES ==>
          SameCounts(g.perf.sources[i], Perf.SourceRun(Perf.NEW_PORT, Frames(g.log, i))))
    && (forall j :: 0 <= j < MAX_SINKS ==> SinkTallied(g.perf.sinks[j], g.log, j))
  }

  predicate SinkTallied(u: Perf.PortUnit, log: seq<Event>, j: nat) {
    u.succ == Count(log, DeliveredTo(j)) && u.bytes == SentBytes(log, j) && u.drop == 0 && u.prevSeq == 0
  }

  lemma SentOne(log: seq<Event>, e: Event, j: nat)
    ensures SentBytes(log + [e], j) == SentBytes(log, j) + (if Is(e, DeliveredTo(j)) then Size(e.sent) else 0)
  {
    assert (log + [e])[..|log|] == log;
  }

  lemma {:induction false} SentMore(log: seq<Event>, more: seq<Event>, j: nat)
    ensures SentBytes(log + more, j) == SentBytes(log, j) + SentBytes(more, j)
    decreases |more|
  {
    if more == [] {
      assert log + more == log;
    } else {
      SentMore(log, more[..|more| - 1], j);
      assert (log + more)[..|log + more| - 1] == log + more[..|more| - 1];
    }
  }

  /** The delivery loop counts, for each sink, the bytes it was sent. */
  lemma {:induction false} SinksCountBytes(perf: Perf.State, sinks: seq<Sink>, selected: set<nat>, on: bool,
                                           source: nat, mav: Mavlink, guarded: bool, n: nat, j: nat)
    requires n <= |sinks| == MAX_SINKS && Perf.Shaped(perf) && j < MAX_SINKS
    ensures var u, u' := perf.sinks[j], SinkCounts(perf, sinks, selected, on, mav, n).sinks[j];
            var d := Deliveries(sinks, selected, on, source, mav, guarded, n);
            u'.bytes == u.bytes + SentBytes(d, j) && u'.drop == u.drop && u'.prevSeq == u.prevSeq
  {
    if n > 0 {
      SinksCountBytes(perf, sinks, selected, on, source, mav, guarded, n - 1, j);
      var before := Deliveries(sinks, selected, on, source, mav, guarded, n - 1);
      SentOne(before, Delivered(n - 1, source, mav, Chain(sinks, selected, on, mav, n), guarded), j);
    }
  }

  lemma PushTallies<P>(g: Gw<P>, msg: Msg, j: nat)
    requires Shaped(g) && msg.source < MAX_SOURCES && j < MAX_SINKS
    ensures var u, u' := g.perf.sinks[j], Push(g, msg).0.perf.sinks[j];
            && u'.succ == u.succ + Count(PushLog(g, msg), DeliveredTo(j))
            && u'.bytes == u.bytes + SentBytes(PushLog(g, msg), j)
            && u'.drop == u.drop && u'.prevSeq == u.prevSeq
  {
    PushAppends(g, msg);
    SinksCountBytes(g.perf, g.sinks, Route(msg.source), g.transformOn, msg.source, msg.mav, g.policyOn, MAX_SINKS, j);
    SentOne([], Rejected(msg.source, msg.mav), j);
    assert [] + [Rejected(msg.source, msg.mav)] == [Rejected(msg.source, msg.mav)];
  }

  lemma SourceRunOne(frames: seq<Mavlink>, mav: Mavlink)
    ensures Perf.SourceRun(Perf.NEW_PORT, frames + [mav])
            == Perf.SourceUpdate(Perf.SourceRun(Perf.NEW_PORT, frames), mav)
  {
    assert (frames + [mav])[..|frames|] == frames;
  }

  lemma FrameTallies<P>(g: Gw<P>, i: nat, mav: Mavlink)
    requires Configured(g) && Tallied(g) && i < MAX_SOURCES && g.sources[i].connected
    ensures Tallied(Frame(g, i, mav))
  {
    var g', e, more := Frame(g, i, mav), Arrival(g, i, mav), FrameLog(g, i, mav);
    FrameAppends(g, i, mav);
    forall k | 0 <= k < MAX_SOURCES
      ensures SameCounts(g'.perf.sources[k], Perf.SourceRun(Perf.NEW_PORT, Frames(g'.log, k)))
    {
      FramesOne(g.log, e, k);
      FramesSkip(g.log + [e], more, k);
      SourceTallies(g, i, mav, k, Frames(g.log, k));
    }
    forall j | 0 <= j < MAX_SINKS ensures SinkTallied(g'.perf.sinks[j], g'.log, j) {
      FrameSinkTallies(g, i, mav, j);
    }
  }

  lemma SourceTallies<P>(g: Gw<P>, i: nat, mav: Mavlink, k: nat, frames: seq<Mavlink>)
    requires Configured(g) && i < MAX_SOURCES && k < MAX_SOURCES && g.sources[i].connected
    requires SameCounts(g.perf.sources[k], Perf.SourceRun(Perf.NEW_PORT, frames))
    ensures SameCounts(Frame(g, i, mav).perf.sources[k],
                       Perf.SourceRun(Perf.NEW_PORT, frames + (if k == i then [mav] else [])))
  {
    var (counted, msg) := FrameMessage(g, i, mav);
    PushAppends(counted, msg);
    SourceRunOne(frames, mav);
    assert frames + [] == frames;
  }

  lemma FrameSinkTallies<P>(g: Gw<P>, i: nat, mav: Mavlink, j: nat)
    requires Configured(g) && i < MAX_SOURCES && g.sources[i].connected && j < MAX_SINKS
    requires SinkTallied(g.perf.sinks[j], g.log, j)
    ensures SinkTallied(Frame(g, i, mav).perf.sinks[j], Frame(g, i, mav).log, j)
  {
    var (counted, msg) := FrameMessage(g, i, mav);
    FrameAppends(g, i, mav);
    PushTallies(counted, msg, j);
    SentMore(g.log + [Arrival(g, i, mav)], FrameLog(g, i, mav), j);
    SentOne(g.log, Arrival(g, i, mav), j);
    FrameCounts(g, i, mav, DeliveredTo(j));
  }

  lemma ByteTallies<P>(g: Gw<P>, i: nat, b: byte)
    requires Configured(g) && Tallied(g) && i < MAX_SOURCES && g.sources[i].connected
    ensures var g' := Byte(g, i, b); Configured(g') && Tallied(g') && g'.sources[i].connected
  {
    var out := g.parser.step(g.channels[i], b);
    if out.Framed? {
      FrameTallies(Fed(g, i, b), i, out.mav);
      FrameAppends(Fed(g, i, b), i, out.mav);
    }
  }

  lemma {:induction false} BytesTally<P>(g: Gw<P>, i: nat, bytes: seq<byte>)
    requires Configured(g) && Tallied(g) && i < MAX_SOURCES && g.sources[i].connected
    ensures var g' := Bytes(g, i, bytes); Configured(g') && Tallied(g') && g'.sources[i].connected
  {
    if bytes != [] {
      BytesTally(g, i, bytes[..|bytes| - 1]);
      ByteTallies(Bytes(g, i, bytes[..|bytes| - 1]), i, bytes[|bytes| - 1]);
    }
  }

  lemma {:induction false} TurnsTally<P>(g: Gw<P>, arrivals: seq<seq<byte>>, n: nat)
    requires Configured(g) && Tallied(g) && |arrivals| == MAX_SOURCES && n <= MAX_SOURCES
    ensures Configured(Turns(g, arrivals, n)) && Tallied(Turns(g, arrivals, n))
  {
    if n > 0 {
      TurnsTally(g, arrivals, n - 1);
      var before := Turns(g, arrivals, n - 1);
      if before.sources[n - 1].connected {
        BytesTally(before, n - 1, arrivals[n - 1]);
      }
    }
  }

  lemma TurnEndTallies<P>(g: Gw<P>, duration: nat, loaded: bool, now: nat)
    requires Shaped(g) && Tallied(g)
    ensures Tallied(TurnEnd(g, duration, loaded, now))
  {
    var g' := TurnEnd(g, duration, loaded, now);
    forall k | 0 <= k < MAX_SOURCES
      ensures SameCounts(g'.perf.sources[k], g.perf.sources[k]) && SameCounts(g'.perf.sinks[k], g.perf.sinks[k])
    {
    }
  }

  lemma {:induction false} RunTallies<P>(parser: Parser<P>, start: bool, steps: seq<Step>)
    requires AllPossible(steps)
    ensures Tallied(Reached(parser, start, steps))
  {
    if steps != [] {
      var before, step := steps[..|steps| - 1], steps[|steps| - 1];
      RunTallies(parser, start, before);
      ReachedGood(parser, start, before);
      StepTallies(Reached(parser, start, before), step);
    }
  }

  lemma StepTallies<P>(g: Gw<P>, step: Step)
    requires Configured(g) && Tallied(g) && Possible(step)
    ensures Tallied(Do(g, step))
  {
    if step.DoSpin? {
      TurnsTally(g, step.arrivals, MAX_SOURCES);
      TurnEndTallies(Turns(g, step.arrivals, MAX_SOURCES), step.clock.tend - step.clock.tstart,
                     Loaded(g, step.arrivals, MAX_SOURCES), step.clock.now);
    }
  }

  lemma {:induction false} SourceRunBytes(frames: seq<Mavlink>)
    ensures Perf.SourceRun(Perf.NEW_PORT, frames).bytes == SizeOf(frames)
  {
    if frames != [] {
      SourceRunBytes(frames[..|frames| - 1]);
    }
  }

  /** A source's unit that has counted these frames, in full. */
  ghost predicate SourceCounted(u: Perf.PortUnit, frames: seq<Mavlink>) {
    && u.succ == |frames| && u.bytes == SizeOf(frames)
    && u.drop == Perf.SourceRun(Perf.NEW_PORT, frames).drop
    && (|Perf.Autopilot(frames)| + u.drop) % 256 == u.prevSeq
  }

  lemma TallyCounts(u: Perf.PortUnit, frames: seq<Mavlink>)
    requires SameCounts(u, Perf.SourceRun(Perf.NEW_PORT, frames))
    ensures SourceCounted(u, frames)
  {
    SourceRunBytes(frames);
    Perf.DropsMatchSequence(frames);
  }

  /** Over every run: each source has counted the frames of the parse of its own arrivals, their bytes before
      any transform, and drops that agree with their sequence numbers modulo 256; each sink the messages its
      route function was given, their bytes after the transforms, and no drops. */
  lemma PortsCount<P>(parser: Parser<P>, start: bool, steps: seq<Step>, i: nat, j: nat)
    requires AllPossible(steps) && i < MAX_SOURCES && j < MAX_SINKS
    ensures var g := Reached(parser, start, steps);
            && SourceCounted(g.perf.sources[i], Parse(parser, ArrivedFrom(Init(parser, start), steps, i)))
            && g.perf.sinks[j].succ == Count(g.log, DeliveredTo(j))
            && g.perf.sinks[j].bytes == SentBytes(g.log, j)
            && g.perf.sinks[j].drop == 0
  {
    RunTallies(parser, start, steps);
    FramesOfArrivals(parser, start, steps, i);
    var g := Reached(parser, start, steps);
    TallyCounts(g.perf.sources[i], Frames(g.log, i));
  }

  /** And the reports show all of it: what they showed of the autopilot's source and sink, and what was counted
      since the last of them. */
  lemma ReportsShowPorts<P>(parser: Parser<P>, start: bool, steps: seq<Step>)
    requires AllPossible(steps)
    ensures var g := Reached(parser, start, steps);
            var t, source, sink := Perf.Totals(g.perf.reports), g.perf.sources[SOURCE_VMC], g.perf.sinks[SINK_VMC];
            var frames := Parse(parser, ArrivedFrom(Init(parser, start), steps, SOURCE_VMC));
            && t.source.bytes + (source.bytes - source.lastBytes) == SizeOf(frames)
            && t.source.drop + (source.drop - source.lastDrop) == Perf.SourceRun(Perf.NEW_PORT, frames).drop
            && t.sink.bytes + (sink.bytes - sink.lastBytes) == SentBytes(g.log, SINK_VMC)
            && t.sink.drop == 0
  {
    PortsCount(parser, start, steps, SOURCE_VMC, SINK_VMC);
    RunAccounted(Init(parser, start), steps);
    OnlySelectedAreQueried(parser, start, steps);
  }

  predicate NeverQueried(u: Perf.PortUnit) {
    Perf.Shown(u) == Perf.PortResult(0, 0, 0, 0)
  }

  predicate OthersNeverQueried(perf: Perf.State)
    requires Perf.Shaped(perf)
  {
    && (forall k :: 0 <= k < Perf.UNITS && k != SOURCE_VMC ==> NeverQueried(perf.sources[k]))
    && (forall k :: 0 <= k < Perf.UNITS && k != SINK_VMC ==> NeverQueried(perf.sinks[k]))
    && perf.sinks[SINK_VMC].lastDrop == 0
  }

  /** Only the units of the autopilot's port are ever queried, and no report shows drops of a sink. */
  lemma {:induction false} OnlySelectedAreQueried<P>(parser: Parser<P>, start: bool, steps: seq<Step>)
    requires AllPossible(steps)
    ensures OthersNeverQueried(Reached(parser, start, steps).perf)
  {
    if steps != [] {
      var before, step := steps[..|steps| - 1], steps[|steps| - 1];
      OnlySelectedAreQueried(parser, start, before);
      RunTallies(parser, start, steps);
      StepQueries(Reached(parser, start, before), step);
    }
  }

  lemma StepQueries<P>(g: Gw<P>, step: Step)
    requires Shaped(g) && Possible(step) && OthersNeverQueried(g.perf)
    requires Do(g, step).perf.sinks[SINK_VMC].drop == 0
    ensures OthersNeverQueried(Do(g, step).perf)
  {
    if step.DoSpin? {
      var turned := Turns(g, step.arrivals, MAX_SOURCES).perf;
      TurnsTiming(g, step.arrivals, MAX_SOURCES);
      assert Perf.Shown(turned.sinks[SINK_VMC]) == Perf.Shown(g.perf.sinks[SINK_VMC]);
    }
  }
}
