/** The main results about whole runs of the pipeline, from pipeline_init on. */
module GatewayTheorems {
  import opened Common
  import opened SecurityPolicies
  import opened Gateway
  import opened GatewayRuns
  import Perf

  ghost predicate AllPossible(steps: seq<Step>) {
    forall k :: 0 <= k < |steps| ==> Possible(steps[k])
  }

  /** The state after pipeline_init and any steps. */
  ghost function Reached<P>(parser: Parser<P>, transformOn: bool, steps: seq<Step>): (g: Gw<P>)
    requires AllPossible(steps)
    ensures Shaped(g)
  {
    DoAll(Init(parser, transformOn), steps)
  }

  lemma ReachedGood<P>(parser: Parser<P>, transformOn: bool, steps: seq<Step>)
    requires AllPossible(steps)
    ensures Good(Reached(parser, transformOn, steps))
  {
    InitGood(parser, transformOn);
    RunGood(Init(parser, transformOn), steps);
  }

  /** Safety: whatever was hooked, toggled and received, a message delivered to the autopilot in a spin
      with policies on was, before the sink transform, none of the forbidden ones. */
  lemma AutopilotIsProtected<P>(parser: Parser<P>, transformOn: bool, steps: seq<Step>, e: Event)
    requires AllPossible(steps) && e in Reached(parser, transformOn, steps).log
    requires e.Delivered? && e.sink == SINK_VMC && e.guarded
    ensures e.mav.msgid != MSG_MEMINFO
    ensures !(e.mav.msgid == MSG_COMMAND_LONG && e.mav.command == CMD_DO_FENCE_ENABLE && e.mav.param1 == 0.0)
    ensures !(e.mav.msgid == MSG_PARAM_SET && e.mav.paramId[..12] == FENCE_ENABLE && e.mav.paramValue == 0.0)
  {
    ReachedGood(parser, transformOn, steps);
    assert EventOk(e);
  }

  /** Confinement: nothing leaves by the port it entered, LEGACY and ENCLAVE never exchange a message,
      messages of the NULL source and rejected ones reach no sink, and only untrusted sources are
      rejected, only for a forbidden message. */
  lemma FlowsAreConfined<P>(parser: Parser<P>, transformOn: bool, steps: seq<Step>, e: Event)
    requires AllPossible(steps) && e in Reached(parser, transformOn, steps).log
    ensures e.Delivered? ==>
              && e.source != SOURCE_NULL && e.sink != SINK_DISCARD
              && (e.source == SOURCE_VMC ==> e.sink == SINK_LEGACY || e.sink == SINK_ENCLAVE)
              && (e.source == SOURCE_LEGACY || e.source == SOURCE_ENCLAVE ==> e.sink == SINK_VMC)
    ensures e.Rejected? ==> Untrusted(e.source) && Forbidden(e.mav)
  {
    ReachedGood(parser, transformOn, steps);
    assert EventOk(e);
  }

  /** Demultiplexing: for every schedule, the frames of source i are the parse of the bytes read from
      source i, by a parser that sees nothing else. */
  lemma SourcesDoNotMix<P>(parser: Parser<P>, transformOn: bool, steps: seq<Step>, i: nat)
    requires AllPossible(steps) && i < MAX_SOURCES
    ensures var g := Reached(parser, transformOn, steps);
            Frames(g.log, i) == Parse(g.parser, g.read[i])
  {
    ReachedGood(parser, transformOn, steps);
  }

  /** The bytes read from source i are its arrivals in the spins where it was connected, in order. */
  lemma SpinReads<P>(g: Gw<P>, arrivals: seq<seq<byte>>, clock: Clock, i: nat)
    requires Shaped(g) && |arrivals| == MAX_SOURCES && clock.tstart <= clock.tend && i < MAX_SOURCES
    ensures Spin(g, arrivals, clock).read[i] == g.read[i] + (if g.sources[i].connected then arrivals[i] else [])
    ensures Spin(g, arrivals, clock).parser == g.parser
  {
    TurnsRead(g, arrivals, MAX_SOURCES, i);
  }

  /** What source k contributes to the turns of the sources below n. */
  function Share<P>(g: Gw<P>, arrivals: seq<seq<byte>>, n: nat, k: nat): seq<byte>
    requires Shaped(g) && |arrivals| == MAX_SOURCES && k < MAX_SOURCES
  {
    if k < n && g.sources[k].connected then arrivals[k] else []
  }

  lemma {:induction false} TurnsRead<P>(g: Gw<P>, arrivals: seq<seq<byte>>, n: nat, k: nat)
    requires Shaped(g) && |arrivals| == MAX_SOURCES && n <= MAX_SOURCES && k < MAX_SOURCES
    ensures var g' := Turns(g, arrivals, n);
            && g'.parser == g.parser
            && g'.sources[k].connected == g.sources[k].connected
            && g'.read[k] == g.read[k] + Share(g, arrivals, n, k)
  {
    if n > 0 {
      TurnsRead(g, arrivals, n - 1, k);
      LastTurnReads(g, Turns(g, arrivals, n - 1), arrivals, n, k);
    }
  }

  lemma LastTurnReads<P>(g: Gw<P>, before: Gw<P>, arrivals: seq<seq<byte>>, n: nat, k: nat)
    requires Shaped(g) && Shaped(before) && |arrivals| == MAX_SOURCES && 0 < n <= MAX_SOURCES && k < MAX_SOURCES
    requires before.sources[k].connected == g.sources[k].connected
    requires before.read[k] == g.read[k] + Share(g, arrivals, n - 1, k)
    ensures var g' := if before.sources[n - 1].connected then Bytes(before, n - 1, arrivals[n - 1]) else before;
            && g'.parser == before.parser
            && g'.sources[k].connected == g.sources[k].connected
            && g'.read[k] == g.read[k] + Share(g, arrivals, n, k)
  {
    assert before.read[k] + [] == before.read[k] && g.read[k] + [] == g.read[k];
    if before.sources[n - 1].connected {
      BytesRead(before, n - 1, arrivals[n - 1], k);
      if k != n - 1 {
        assert Share(g, arrivals, n, k) == Share(g, arrivals, n - 1, k);
      }
    }
  }

  lemma {:induction false} BytesRead<P>(g: Gw<P>, i: nat, bytes: seq<byte>, k: nat)
    requires Shaped(g) && i < MAX_SOURCES && k < MAX_SOURCES
    ensures var g' := Bytes(g, i, bytes);
            && g'.parser == g.parser
            && g'.sources[k].connected == g.sources[k].connected
            && g'.read[k] == g.read[k] + (if k == i then bytes else [])
  {
    if bytes != [] {
      var n := |bytes|;
      BytesRead(g, i, bytes[..n - 1], k);
      ByteReads(Bytes(g, i, bytes[..n - 1]), i, bytes[n - 1]);
      assert bytes == bytes[..n - 1] + [bytes[n - 1]];
    }
  }

  lemma ByteReads<P>(g: Gw<P>, i: nat, b: byte)
    requires Shaped(g) && i < MAX_SOURCES
    ensures var g' := Byte(g, i, b);
            && g'.parser == g.parser
            && g'.read == g.read[i := g.read[i] + [b]]
            && g'.sinks == g.sinks
            && (forall k :: 0 <= k < MAX_SOURCES ==> g'.sources[k].connected == g.sources[k].connected)
  {
  }

  /** What one step brings from source i: its own arrivals, in a spin that finds it connected. */
  function Brought<P>(g: Gw<P>, step: Step, i: nat): seq<byte>
    requires Shaped(g) && Possible(step) && i < MAX_SOURCES
  {
    if step.DoSpin? && g.sources[i].connected then step.arrivals[i] else []
  }

  /** All that arrived from source i over a run, in order. */
  function ArrivedFrom<P>(g: Gw<P>, steps: seq<Step>, i: nat): seq<byte>
    requires Shaped(g) && (forall k :: 0 <= k < |steps| ==> Possible(steps[k])) && i < MAX_SOURCES
  {
    if steps == [] then [] else
    var before := steps[..|steps| - 1];
    ArrivedFrom(g, before, i) + Brought(DoAll(g, before), steps[|steps| - 1], i)
  }

  lemma DoReads<P>(g: Gw<P>, step: Step, i: nat)
    requires Shaped(g) && Possible(step) && i < MAX_SOURCES
    ensures Do(g, step).read[i] == g.read[i] + Brought(g, step, i)
    ensures Do(g, step).parser == g.parser
  {
    assert g.read[i] + [] == g.read[i];
    if step.DoSpin? {
      SpinReads(g, step.arrivals, step.clock, i);
    }
  }

  lemma Associates(a: seq<byte>, b: seq<byte>, c: seq<byte>)
    ensures a + b + c == a + (b + c)
  {
  }

  /** Over every run the bytes read from source i are its own arrivals. */
  lemma {:induction false} RunReads<P>(g: Gw<P>, steps: seq<Step>, i: nat)
    requires Shaped(g) && AllPossible(steps) && i < MAX_SOURCES
    ensures DoAll(g, steps).read[i] == g.read[i] + ArrivedFrom(g, steps, i)
    ensures DoAll(g, steps).parser == g.parser
  {
    if steps == [] {
      assert g.read[i] + [] == g.read[i];
    } else {
      var before, step := steps[..|steps| - 1], steps[|steps| - 1];
      RunReads(g, before, i);
      DoReads(DoAll(g, before), step, i);
      Associates(g.read[i], ArrivedFrom(g, before, i), Brought(DoAll(g, before), step, i));
    }
  }

  /** Over every run the frames of source i are the parse of its own arrivals. */
  lemma FramesOfArrivals<P>(parser: Parser<P>, on: bool, steps: seq<Step>, i: nat)
    requires AllPossible(steps) && i < MAX_SOURCES
    ensures Frames(Reached(parser, on, steps).log, i) == Parse(parser, ArrivedFrom(Init(parser, on), steps, i))
  {
    var g := Init(parser, on);
    SourcesDoNotMix(parser, on, steps, i);
    RunReads(g, steps, i);
    assert g.read[i] + ArrivedFrom(g, steps, i) == ArrivedFrom(g, steps, i);
  }

  predicate Connects(step: Step, i: nat) {
    step.DoHook? && step.source == i
  }

  lemma DoConnects<P>(g: Gw<P>, step: Step, i: nat)
    requires Shaped(g) && Possible(step) && i < MAX_SOURCES
    ensures Do(g, step).sources[i].connected <==> g.sources[i].connected || Connects(step, i)
  {
    if step.DoSpin? {
      TurnsRead(g, step.arrivals, MAX_SOURCES, i);
    }
  }

  /** What a run shows to source i: the hooks of its slot, and its own bytes. */
  datatype Sight = Hooked | Arrived(bytes: seq<byte>)

  function Shown(step: Step, i: nat): seq<Sight>
    requires Possible(step) && i < MAX_SOURCES
  {
    if Connects(step, i) then [Hooked]
    else if step.DoSpin? && step.arrivals[i] != [] then [Arrived(step.arrivals[i])]
    else []
  }

  function Sights(steps: seq<Step>, i: nat): seq<Sight>
    requires (forall k :: 0 <= k < |steps| ==> Possible(steps[k])) && i < MAX_SOURCES
  {
    if steps == [] then [] else Sights(steps[..|steps| - 1], i) + Shown(steps[|steps| - 1], i)
  }

  /** Of what is shown to a slot that starts unconnected, the bytes after its first hook. */
  function Heard(sights: seq<Sight>): seq<byte> {
    if sights == [] then [] else
    var before, last := sights[..|sights| - 1], sights[|sights| - 1];
    if last.Arrived? && Hooked in before then Heard(before) + last.bytes else Heard(before)
  }

  lemma HeardOne(sights: seq<Sight>, step: Step, i: nat)
    requires Possible(step) && i < MAX_SOURCES
    ensures Heard(sights + Shown(step, i))
            == Heard(sights) + (if step.DoSpin? && Hooked in sights then step.arrivals[i] else [])
    ensures Hooked in sights + Shown(step, i) <==> Hooked in sights || Connects(step, i)
  {
    assert Heard(sights) + [] == Heard(sights) && sights + [] == sights;
    if Shown(step, i) != [] {
      assert (sights + Shown(step, i))[..|sights|] == sights;
    }
  }

  lemma {:induction false} ArrivedIsHeard<P>(g: Gw<P>, steps: seq<Step>, i: nat)
    requires Shaped(g) && AllPossible(steps) && i < MAX_SOURCES && !g.sources[i].connected
    ensures ArrivedFrom(g, steps, i) == Heard(Sights(steps, i))
    ensures DoAll(g, steps).sources[i].connected <==> Hooked in Sights(steps, i)
  {
    if steps != [] {
      var n := |steps|;
      ArrivedIsHeard(g, steps[..n - 1], i);
      DoConnects(DoAll(g, steps[..n - 1]), steps[n - 1], i);
      HeardOne(Sights(steps[..n - 1], i), steps[n - 1], i);
    }
  }

  /** No source interferes with another: whatever two runs of any lengths do with other sources, sinks,
      transforms, toggles and clocks, if they hook source i and let its bytes arrive alike, the frames
      parsed from source i are the same, namely the parse of its own arrivals. */
  lemma SourcesDoNotInterfere<P>(parser: Parser<P>, onA: bool, a: seq<Step>, onB: bool, b: seq<Step>, i: nat)
    requires AllPossible(a) && AllPossible(b) && i < MAX_SOURCES
    requires Sights(a, i) == Sights(b, i)
    ensures Frames(Reached(parser, onA, a).log, i) == Frames(Reached(parser, onB, b).log, i)
            == Parse(parser, Heard(Sights(a, i)))
  {
    FramesOfArrivals(parser, onA, a, i);
    FramesOfArrivals(parser, onB, b, i);
    ArrivedIsHeard(Init(parser, onA), a, i);
    ArrivedIsHeard(Init(parser, onB), b, i);
  }

  // Balance.

  lemma {:induction false} DeliveryCount(sinks: seq<Sink>, selected: set<nat>, on: bool, source: nat, mav: Mavlink,
                                         guarded: bool, n: nat, j: nat)
    requires n <= |sinks|
    ensures var d := Deliveries(sinks, selected, on, source, mav, guarded, n);
            && Count(d, DeliveredTo(j)) == (if j < n && Chosen(sinks, selected, j) then 1 else 0)
            && Count(d, AnyRejected) == 0
  {
    if n > 0 {
      DeliveryCount(sinks, selected, on, source, mav, guarded, n - 1, j);
      var before := Deliveries(sinks, selected, on, source, mav, guarded, n - 1);
      var e := Delivered(n - 1, source, mav, Chain(sinks, selected, on, mav, n), guarded);
      CountOne(before, e, DeliveredTo(j));
      CountOne(before, e, AnyRejected);
    }
  }

  /** What one frame of source i adds to the balance. */
  lemma FrameShares<P>(g: Gw<P>, i: nat, mav: Mavlink, j: nat)
    requires Configured(g) && i < MAX_SOURCES && g.sources[i].connected && j < MAX_SINKS
    ensures var more := FrameLog(g, i, mav);
            var delivered, rejected := Count(more, DeliveredTo(j)), Count(more, AnyRejected);
            && (j in Route(i) && g.sinks[j].routable ==> delivered + rejected == 1)
            && (j !in Route(i) || !g.sinks[j].routable ==> delivered == 0)
            && (!Untrusted(i) ==> rejected == 0)
            && rejected <= 1
  {
    var (counted, msg) := FrameMessage(g, i, mav);
    DefaultVerdict(msg.(sinks := Route(i)));
    DeliveryCount(g.sinks, Route(i), g.transformOn, i, msg.mav, g.policyOn, MAX_SINKS, j);
    CountOne([], Rejected(i, msg.mav), DeliveredTo(j));
    CountOne([], Rejected(i, msg.mav), AnyRejected);
    assert [] + [Rejected(i, msg.mav)] == [Rejected(i, msg.mav)];
  }

  lemma FrameCounts<P>(g: Gw<P>, i: nat, mav: Mavlink, kind: Kind)
    requires Configured(g) && i < MAX_SOURCES && g.sources[i].connected
    ensures Count(Frame(g, i, mav).log, kind)
            == Count(g.log, kind) + (if kind == ParsedFrom(i) then 1 else 0) + Count(FrameLog(g, i, mav), kind)
    ensures kind.ParsedFrom? ==> Count(FrameLog(g, i, mav), kind) == 0
  {
    FrameAppends(g, i, mav);
    CountOne(g.log, Arrival(g, i, mav), kind);
    CountAppend(g.log + [Arrival(g, i, mav)], FrameLog(g, i, mav), kind);
    if kind.ParsedFrom? {
      CountNone(FrameLog(g, i, mav), kind);
    }
  }

  /** The flow balance towards sink j, which takes the messages of `sources`. */
  ghost predicate BalancedAt<P>(g: Gw<P>, j: nat)
    requires Shaped(g)
  {
    match j
    case 1 => g.sinks[SINK_VMC].routable ==>
                Count(g.log, DeliveredTo(SINK_VMC)) + Count(g.log, AnyRejected)
                == Count(g.log, ParsedFrom(SOURCE_LEGACY)) + Count(g.log, ParsedFrom(SOURCE_ENCLAVE))
    case 2 => g.sinks[SINK_ENCLAVE].routable ==>
                Count(g.log, DeliveredTo(SINK_ENCLAVE)) == Count(g.log, ParsedFrom(SOURCE_VMC))
    case 3 => g.sinks[SINK_LEGACY].routable ==>
                Count(g.log, DeliveredTo(SINK_LEGACY)) == Count(g.log, ParsedFrom(SOURCE_VMC))
    case _ => true
  }

  lemma FrameBalanced<P>(g: Gw<P>, i: nat, mav: Mavlink, j: nat)
    requires Configured(g) && i < MAX_SOURCES && g.sources[i].connected
    requires 1 <= j <= 3 && BalancedAt(g, j)
    ensures BalancedAt(Frame(g, i, mav), j)
  {
    FrameAppends(g, i, mav);
    FrameShares(g, i, mav, j);
    FrameCounts(g, i, mav, DeliveredTo(j));
    FrameCounts(g, i, mav, AnyRejected);
    FrameCounts(g, i, mav, ParsedFrom(SOURCE_VMC));
    FrameCounts(g, i, mav, ParsedFrom(SOURCE_LEGACY));
    FrameCounts(g, i, mav, ParsedFrom(SOURCE_ENCLAVE));
  }

  lemma ByteBalanced<P>(g: Gw<P>, i: nat, b: byte, j: nat)
    requires Good(g) && i < MAX_SOURCES && g.sources[i].connected
    requires 1 <= j <= 3 && BalancedAt(g, j)
    ensures BalancedAt(Byte(g, i, b), j)
  {
    var out := g.parser.step(g.channels[i], b);
    if out.Framed? {
      FrameBalanced(Fed(g, i, b), i, out.mav, j);
    }
  }

  lemma {:induction false} BytesBalanced<P>(g: Gw<P>, i: nat, bytes: seq<byte>, j: nat)
    requires Good(g) && i < MAX_SOURCES && g.sources[i].connected
    requires 1 <= j <= 3 && BalancedAt(g, j)
    ensures BalancedAt(Bytes(g, i, bytes), j) && Bytes(g, i, bytes).sinks == g.sinks
  {
    if bytes != [] {
      var n := |bytes|;
      BytesBalanced(g, i, bytes[..n - 1], j);
      BytesGood(g, i, bytes[..n - 1]);
      ByteBalanced(Bytes(g, i, bytes[..n - 1]), i, bytes[n - 1], j);
      ByteReads(Bytes(g, i, bytes[..n - 1]), i, bytes[n - 1]);
    }
  }

  lemma {:induction false} TurnsBalanced<P>(g: Gw<P>, arrivals: seq<seq<byte>>, n: nat, j: nat)
    requires Good(g) && |arrivals| == MAX_SOURCES && n <= MAX_SOURCES
    requires 1 <= j <= 3 && BalancedAt(g, j)
    ensures BalancedAt(Turns(g, arrivals, n), j) && Turns(g, arrivals, n).sinks == g.sinks
  {
    if n > 0 {
      TurnsBalanced(g, arrivals, n - 1, j);
      TurnsGood(g, arrivals, n - 1);
      var before := Turns(g, arrivals, n - 1);
      if before.sources[n - 1].connected {
        BytesBalanced(before, n - 1, arrivals[n - 1], j);
      }
    }
  }

  lemma DoBalanced<P>(g: Gw<P>, step: Step, j: nat)
    requires Good(g) && Possible(step)
    requires 1 <= j <= 3 && g.sinks[j].routable && BalancedAt(g, j)
    ensures Do(g, step).sinks[j].routable && BalancedAt(Do(g, step), j)
  {
    if step.DoSpin? {
      TurnsBalanced(g, step.arrivals, MAX_SOURCES, j);
    }
  }

  /** Once a sink is hooked it stays hooked, and its flow stays in balance. */
  lemma {:induction false} RunBalanced<P>(g: Gw<P>, steps: seq<Step>, j: nat)
    requires Good(g) && AllPossible(steps)
    requires 1 <= j <= 3 && g.sinks[j].routable && BalancedAt(g, j)
    ensures DoAll(g, steps).sinks[j].routable && BalancedAt(DoAll(g, steps), j)
  {
    if steps != [] {
      var n := |steps|;
      RunBalanced(g, steps[..n - 1], j);
      RunGood(g, steps[..n - 1]);
      DoBalanced(DoAll(g, steps[..n - 1]), steps[n - 1], j);
    }
  }

  /** Counter balance: with the autopilot's sink hooked before the first message, what it got plus what
      was rejected is what the LEGACY and ENCLAVE sources delivered; and a LEGACY or ENCLAVE sink hooked
      then has been sent exactly as many messages as the autopilot's source delivered. */
  lemma CountersBalance<P>(g: Gw<P>, steps: seq<Step>)
    requires Good(g) && g.log == [] && AllPossible(steps)
    ensures var g' := DoAll(g, steps);
            && (g.sinks[SINK_VMC].routable ==>
                  g'.perf.sinks[SINK_VMC].succ + Count(g'.log, AnyRejected)
                  == g'.perf.sources[SOURCE_LEGACY].succ + g'.perf.sources[SOURCE_ENCLAVE].succ)
            && (g.sinks[SINK_LEGACY].routable ==>
                  g'.perf.sinks[SINK_LEGACY].succ == g'.perf.sources[SOURCE_VMC].succ)
            && (g.sinks[SINK_ENCLAVE].routable ==>
                  g'.perf.sinks[SINK_ENCLAVE].succ == g'.perf.sources[SOURCE_VMC].succ)
  {
    RunGood(g, steps);
    if g.sinks[SINK_VMC].routable {
      RunBalanced(g, steps, SINK_VMC);
    }
    if g.sinks[SINK_LEGACY].routable {
      RunBalanced(g, steps, SINK_LEGACY);
    }
    if g.sinks[SINK_ENCLAVE].routable {
      RunBalanced(g, steps, SINK_ENCLAVE);
    }
  }

  // Load.

  /** The clock never goes back over the spins of a run that starts at time `from`. */
  ghost predicate Monotone(steps: seq<Step>, from: nat) {
    steps == [] ||
    var last := steps[|steps| - 1];
    && Monotone(steps[..|steps| - 1], from)
    && (last.DoSpin? ==> LastTime(steps[..|steps| - 1], from) <= last.clock.tstart)
  }

  ghost function LastTime(steps: seq<Step>, from: nat): nat {
    if steps == [] then from
    else if steps[|steps| - 1].DoSpin? then steps[|steps| - 1].clock.now
    else LastTime(steps[..|steps| - 1], from)
  }

  /** Everything in the accounts but the packet counters. */
  ghost predicate SameTiming(a: Perf.State, b: Perf.State)
    requires Perf.Shaped(a) && Perf.Shaped(b)
  {
    && a.exec == b.exec && a.last == b.last && a.reports == b.reports
    && (forall k :: 0 <= k < Perf.UNITS ==>
          && Perf.Shown(a.sources[k]) == Perf.Shown(b.sources[k])
          && Perf.Shown(a.sinks[k]) == Perf.Shown(b.sinks[k]))
  }

  lemma ByteTiming<P>(g: Gw<P>, i: nat, b: byte)
    requires Shaped(g) && i < MAX_SOURCES
    ensures SameTiming(g.perf, Byte(g, i, b).perf)
  {
    var out := g.parser.step(g.channels[i], b);
    if out.Framed? {
      var (counted, msg) := FrameMessage(g, i, out.mav);
      SinkCountsMatch(counted.perf, g.sinks, Route(msg.source), g.transformOn, msg.source, msg.mav, g.policyOn,
                      MAX_SINKS);
    }
  }

  lemma {:induction false} BytesTiming<P>(g: Gw<P>, i: nat, bytes: seq<byte>)
    requires Shaped(g) && i < MAX_SOURCES
    ensures SameTiming(g.perf, Bytes(g, i, bytes).perf)
  {
    if bytes != [] {
      BytesTiming(g, i, bytes[..|bytes| - 1]);
      ByteTiming(Bytes(g, i, bytes[..|bytes| - 1]), i, bytes[|bytes| - 1]);
    }
  }

  lemma {:induction false} TurnsTiming<P>(g: Gw<P>, arrivals: seq<seq<byte>>, n: nat)
    requires Shaped(g) && |arrivals| == MAX_SOURCES && n <= MAX_SOURCES
    ensures SameTiming(g.perf, Turns(g, arrivals, n).perf)
  {
    if n > 0 {
      TurnsTiming(g, arrivals, n - 1);
      var before := Turns(g, arrivals, n - 1);
      if before.sources[n - 1].connected {
        BytesTiming(before, n - 1, arrivals[n - 1]);
      }
    }
  }

  lemma SpinMetered<P>(g: Gw<P>, step: Step, time: nat)
    requires Shaped(g) && Possible(step) && step.DoSpin? && time <= step.clock.tstart && Perf.Metered(g.perf, time)
    ensures Perf.Metered(Do(g, step).perf, step.clock.now)
  {
    TurnsTiming(g, step.arrivals, MAX_SOURCES);
    Perf.TurnMetered(Turns(g, step.arrivals, MAX_SOURCES).perf, time, step.clock.tstart, step.clock.tend,
                     step.clock.now, Loaded(g, step.arrivals, MAX_SOURCES));
  }

  lemma {:induction false} RunMetered<P>(g: Gw<P>, steps: seq<Step>, from: nat)
    requires Shaped(g) && AllPossible(steps) && Monotone(steps, from) && Perf.Metered(g.perf, from)
    ensures Perf.Metered(DoAll(g, steps).perf, LastTime(steps, from))
  {
    if steps != [] {
      var n := |steps|;
      RunMetered(g, steps[..n - 1], from);
      if steps[n - 1].DoSpin? {
        SpinMetered(DoAll(g, steps[..n - 1]), steps[n - 1], LastTime(steps[..n - 1], from));
      }
    }
  }

  /** With a monotone clock, every report of every run divides by the same duration of at least five
      seconds and prints a load of at most 100 per cent. */
  lemma LoadIsAtMostFull<P>(parser: Parser<P>, transformOn: bool, steps: seq<Step>, r: Perf.Report)
    requires AllPossible(steps) && Monotone(steps, 0) && r in Reached(parser, transformOn, steps).perf.reports
    ensures r.source.duration == r.sink.duration == r.exec.duration >= 5_000_000
    ensures 0 <= r.exec.loadUs * 100 / r.exec.duration <= 100
  {
    RunMetered(Init(parser, transformOn), steps, 0);
    assert Perf.Sensible(r);
    Perf.PercentBound(r.exec.loadUs, r.exec.duration);
  }

  lemma SameTimingAccounts(a: Perf.State, b: Perf.State)
    requires Perf.Shaped(a) && Perf.Shaped(b) && SameTiming(a, b) && Perf.Accounted(a)
    ensures Perf.Accounted(b)
  {
    assert Perf.Shown(a.sources[SOURCE_VMC]) == Perf.Shown(b.sources[SOURCE_VMC]);
    assert Perf.Shown(a.sinks[SINK_VMC]) == Perf.Shown(b.sinks[SINK_VMC]);
  }

  lemma TurnEndAccounts<P>(g: Gw<P>, duration: nat, loaded: bool, now: nat)
    requires Shaped(g) && Perf.Accounted(g.perf)
    ensures Perf.Accounted(TurnEnd(g, duration, loaded, now).perf)
  {
    Perf.ShowAccounts(Perf.CountTurn(g.perf, duration, loaded), now);
  }

  lemma SpinAccounted<P>(g: Gw<P>, step: Step)
    requires Shaped(g) && Possible(step) && step.DoSpin? && Perf.Accounted(g.perf)
    ensures Perf.Accounted(Do(g, step).perf)
  {
    var turned := Turns(g, step.arrivals, MAX_SOURCES);
    TurnsTiming(g, step.arrivals, MAX_SOURCES);
    SameTimingAccounts(g.perf, turned.perf);
    TurnEndAccounts(turned, step.clock.tend - step.clock.tstart, Loaded(g, step.arrivals, MAX_SOURCES), step.clock.now);
  }

  lemma {:induction false} RunAccounted<P>(g: Gw<P>, steps: seq<Step>)
    requires Shaped(g) && AllPossible(steps) && Perf.Accounted(g.perf)
    ensures Perf.Accounted(DoAll(g, steps).perf)
  {
    if steps != [] {
      var n := |steps|;
      RunAccounted(g, steps[..n - 1]);
      if steps[n - 1].DoSpin? {
        SpinAccounted(DoAll(g, steps[..n - 1]), steps[n - 1]);
      }
    }
  }

  /** The reports of every run add up: what they showed of the autopilot's source and sink, and what was
      counted since the last of them, is what was parsed from that source and delivered to that sink; and
      their durations fill the time up to the last of them. */
  lemma ReportsAddUp<P>(parser: Parser<P>, transformOn: bool, steps: seq<Step>)
    requires AllPossible(steps)
    ensures var g := Reached(parser, transformOn, steps);
            var t, source, sink := Perf.Totals(g.perf.reports), g.perf.sources[SOURCE_VMC], g.perf.sinks[SINK_VMC];
            && t.source.succ + (source.succ - source.lastSucc) == Count(g.log, ParsedFrom(SOURCE_VMC))
            && t.sink.succ + (sink.succ - sink.lastSucc) == Count(g.log, DeliveredTo(SINK_VMC))
            && t.source.drop + (source.drop - source.lastDrop) == source.drop
            && t.exec.loadUs + (g.perf.exec.loadUs - g.perf.exec.lastLoadUs) == g.perf.exec.loadUs
            && t.source.duration == source.lastQuery && t.exec.duration == g.perf.exec.lastQuery
  {
    ReachedGood(parser, transformOn, steps);
    RunAccounted(Init(parser, transformOn), steps);
  }

  // Encoding.

  /** Only the autopilot's sink transforms. */
  ghost predicate OnlyAutopilotEncodes<P>(g: Gw<P>)
    requires Shaped(g)
  {
    forall j :: 0 <= j < MAX_SINKS && j != SINK_VMC ==> g.sinks[j].transform == None
  }

  ghost predicate PlainElsewhere(log: seq<Event>) {
    forall k :: 0 <= k < |log| ==> log[k].Delivered? && log[k].sink != SINK_VMC ==> log[k].sent == log[k].mav
  }

  ghost predicate Plain<P>(g: Gw<P>) {
    Configured(g) && OnlyAutopilotEncodes(g) && PlainElsewhere(g.log)
  }

  lemma BytePlain<P>(g: Gw<P>, i: nat, b: byte)
    requires Plain(g) && i < MAX_SOURCES && g.sources[i].connected
    ensures Plain(Byte(g, i, b))
    ensures Byte(g, i, b).sources[i].connected
  {
    var out := g.parser.step(g.channels[i], b);
    if out.Framed? {
      FrameAppends(Fed(g, i, b), i, out.mav);
      FramePlain(Fed(g, i, b), i, out.mav);
    }
  }

  lemma FramePlain<P>(g: Gw<P>, i: nat, mav: Mavlink)
    requires Plain(g) && i < MAX_SOURCES && g.sources[i].connected
    ensures PlainElsewhere(FrameLog(g, i, mav))
  {
    var (counted, msg) := FrameMessage(g, i, mav);
    var r, d := Route(i), FrameLog(g, i, mav);
    DefaultChains(g.sinks, g.transformOn, msg.mav, i);
    forall k | 0 <= k < |d| && d[k].Delivered? && d[k].sink != SINK_VMC ensures d[k].sent == d[k].mav {
      DeliveryOf(g.sinks, r, g.transformOn, i, msg.mav, g.policyOn, MAX_SINKS, d[k]);
    }
  }

  lemma {:induction false} BytesPlain<P>(g: Gw<P>, i: nat, bytes: seq<byte>)
    requires Plain(g) && i < MAX_SOURCES && g.sources[i].connected
    ensures Plain(Bytes(g, i, bytes)) && Bytes(g, i, bytes).sources[i].connected
  {
    if bytes != [] {
      BytesPlain(g, i, bytes[..|bytes| - 1]);
      BytePlain(Bytes(g, i, bytes[..|bytes| - 1]), i, bytes[|bytes| - 1]);
    }
  }

  lemma {:induction false} TurnsPlain<P>(g: Gw<P>, arrivals: seq<seq<byte>>, n: nat)
    requires Plain(g) && |arrivals| == MAX_SOURCES && n <= MAX_SOURCES
    ensures Plain(Turns(g, arrivals, n))
  {
    if n > 0 {
      TurnsPlain(g, arrivals, n - 1);
      var before := Turns(g, arrivals, n - 1);
      if before.sources[n - 1].connected {
        BytesPlain(before, n - 1, arrivals[n - 1]);
      }
    }
  }

  lemma {:induction false} RunPlain<P>(g: Gw<P>, steps: seq<Step>)
    requires Plain(g) && AllPossible(steps)
    requires forall k :: 0 <= k < |steps| && steps[k].TransformSink? ==> steps[k].id == SINK_VMC
    ensures Plain(DoAll(g, steps))
  {
    if steps != [] {
      var n := |steps|;
      RunPlain(g, steps[..n - 1]);
      DoPlain(DoAll(g, steps[..n - 1]), steps[n - 1]);
    }
  }

  lemma DoPlain<P>(g: Gw<P>, step: Step)
    requires Plain(g) && Possible(step) && (step.TransformSink? ==> step.id == SINK_VMC)
    ensures Plain(Do(g, step))
  {
    if step.DoSpin? {
      TurnsPlain(g, step.arrivals, MAX_SOURCES);
    }
  }

  /** With a sink transform added only to the autopilot's sink, no other sink ever sees an encoded
      message, whatever else is hooked, toggled and received. */
  lemma NoOtherSinkSeesEncoding<P>(parser: Parser<P>, transformOn: bool, steps: seq<Step>, e: Event)
    requires AllPossible(steps)
    requires forall k :: 0 <= k < |steps| && steps[k].TransformSink? ==> steps[k].id == SINK_VMC
    requires e in Reached(parser, transformOn, steps).log && e.Delivered? && e.sink != SINK_VMC
    ensures e.sent == e.mav
  {
    RunPlain(Init(parser, transformOn), steps);
  }
}
