/** What a run of the pipeline is configured to do, read off the list of its steps alone: which ports are
    hooked, which transforms and policies are on. And that every event of the run obeys it. */
module GatewayConfig {
  import opened Common
  import opened SecurityPolicies
  import opened Gateway
  import opened GatewayRuns
  import opened GatewayTheorems

  // What the steps say.

  ghost predicate SlotHooked(steps: seq<Step>, i: nat) {
    exists k :: 0 <= k < |steps| && Connects(steps[k], i)
  }

  predicate OpensSink(step: Step, j: nat) {
    (step.DoHook? || step.HookSink?) && step.sink == j
  }

  ghost predicate SinkHooked(steps: seq<Step>, j: nat) {
    exists k :: 0 <= k < |steps| && OpensSink(steps[k], j)
  }

  /** The last toggle of the policies, which start switched on. */
  predicate PoliciesOn(steps: seq<Step>) {
    if steps == [] then true else
    match steps[|steps| - 1]
    case SetPolicies(on) => on
    case _ => PoliciesOn(steps[..|steps| - 1])
  }

  /** The last toggle of the transforms; `start` is what the field held before any. */
  predicate TransformsOn(steps: seq<Step>, start: bool) {
    if steps == [] then start else
    match steps[|steps| - 1]
    case SetTransforms(on) => on
    case _ => TransformsOn(steps[..|steps| - 1], start)
  }

  /** The last transform added to source `i` since its slot was hooked last. */
  function SourceTransform(steps: seq<Step>, i: nat): Option<Transform> {
    if steps == [] then None else
    var before, last := steps[..|steps| - 1], steps[|steps| - 1];
    if last.TransformSource? && last.id == i then Some(last.t)
    else if Connects(last, i) then None
    else SourceTransform(before, i)
  }

  /** The same of sink `j`; hook_stdio_sink leaves the transform alone. */
  function SinkTransform(steps: seq<Step>, j: nat): Option<Transform> {
    if steps == [] then None else
    var before, last := steps[..|steps| - 1], steps[|steps| - 1];
    if last.TransformSink? && last.id == j then Some(last.t)
    else if last.DoHook? && last.sink == j then None
    else SinkTransform(before, j)
  }

  function Transformed(on: bool, t: Option<Transform>, mav: Mavlink): Mavlink {
    match t
    case None => mav
    case Some(f) => if on then f(mav) else mav
  }

  /** What source `i` makes of its frames after these steps. */
  function Decoding(steps: seq<Step>, start: bool, i: nat, mav: Mavlink): Mavlink {
    Transformed(TransformsOn(steps, start), SourceTransform(steps, i), mav)
  }

  /** What sink `j` is sent of a message after these steps: LEGACY gets what ENCLAVE's transform left, if
      ENCLAVE is hooked; no other sink sees the transform of another. */
  ghost function Encoding(steps: seq<Step>, start: bool, j: nat, mav: Mavlink): Mavlink {
    var on := TransformsOn(steps, start);
    var upstream := if j == SINK_LEGACY && SinkHooked(steps, SINK_ENCLAVE)
                    then Transformed(on, SinkTransform(steps, SINK_ENCLAVE), mav) else mav;
    Transformed(on, SinkTransform(steps, j), upstream)
  }

  /** An event of a spin that comes after these steps. */
  ghost predicate EventBy(e: Event, steps: seq<Step>, start: bool) {
    match e
    case Parsed(i, mav, pushed, guarded) =>
      SlotHooked(steps, i) && pushed == Decoding(steps, start, i, mav) && guarded == PoliciesOn(steps)
    case Rejected(_, _) => PoliciesOn(steps)
    case Delivered(j, _, mav, sent, guarded) =>
      SinkHooked(steps, j) && sent == Encoding(steps, start, j, mav) && guarded == PoliciesOn(steps)
  }

  // The state is what the steps say.

  ghost predicate SourceAs(src: Source, steps: seq<Step>, i: nat) {
    && (src.connected <==> SlotHooked(steps, i))
    && (src.connected ==> src.id == i)
    && src.transform == SourceTransform(steps, i)
  }

  ghost predicate SinkAs(sink: Sink, steps: seq<Step>, j: nat) {
    (sink.routable <==> SinkHooked(steps, j)) && sink.transform == SinkTransform(steps, j)
  }

  ghost predicate ConfiguredBy<P>(g: Gw<P>, steps: seq<Step>, start: bool) {
    && Shaped(g)
    && g.policies == DefaultPolicies()
    && g.policyOn == PoliciesOn(steps) && g.transformOn == TransformsOn(steps, start)
    && (forall i :: 0 <= i < MAX_SOURCES ==> SourceAs(g.sources[i], steps, i))
    && (forall j :: 0 <= j < MAX_SINKS ==> SinkAs(g.sinks[j], steps, j))
  }

  lemma StartIsConfigured<P>(parser: Parser<P>, start: bool)
    ensures ConfiguredBy(Init(parser, start), [], start)
  {
  }

  /** One more step. */
  lemma HookedMore(steps: seq<Step>, step: Step)
    ensures forall i :: SlotHooked(steps + [step], i) <==> SlotHooked(steps, i) || Connects(step, i)
    ensures forall j :: SinkHooked(steps + [step], j) <==> SinkHooked(steps, j) || OpensSink(step, j)
  {
    var more := steps + [step];
    assert more[|steps|] == step && forall k :: 0 <= k < |steps| ==> more[k] == steps[k];
    forall i: nat ensures SlotHooked(more, i) <==> SlotHooked(steps, i) || Connects(step, i) {
      if SlotHooked(steps, i) {
        var k :| 0 <= k < |steps| && Connects(steps[k], i);
        assert Connects(more[k], i);
      }
    }
    forall j: nat ensures SinkHooked(more, j) <==> SinkHooked(steps, j) || OpensSink(step, j) {
      if SinkHooked(steps, j) {
        var k :| 0 <= k < |steps| && OpensSink(steps[k], j);
        assert OpensSink(more[k], j);
      }
    }
  }

  lemma SourceFollows<P>(g: Gw<P>, steps: seq<Step>, step: Step, i: nat)
    requires Shaped(g) && Possible(step) && !step.DoSpin? && i < MAX_SOURCES && SourceAs(g.sources[i], steps, i)
    ensures SourceAs(Do(g, step).sources[i], steps + [step], i)
  {
    HookedMore(steps, step);
    assert (steps + [step])[..|steps|] == steps;
  }

  lemma SinkFollows<P>(g: Gw<P>, steps: seq<Step>, step: Step, j: nat)
    requires Shaped(g) && Possible(step) && !step.DoSpin? && j < MAX_SINKS && SinkAs(g.sinks[j], steps, j)
    ensures SinkAs(Do(g, step).sinks[j], steps + [step], j)
  {
    HookedMore(steps, step);
    assert (steps + [step])[..|steps|] == steps;
  }

  lemma TogglesFollow<P>(g: Gw<P>, steps: seq<Step>, start: bool, step: Step)
    requires Shaped(g) && Possible(step) && !step.DoSpin?
    requires g.policyOn == PoliciesOn(steps) && g.transformOn == TransformsOn(steps, start)
    ensures var g', more := Do(g, step), steps + [step];
            && g'.policyOn == PoliciesOn(more) && g'.transformOn == TransformsOn(more, start)
            && g'.policies == g.policies
  {
    assert (steps + [step])[..|steps|] == steps;
  }

  lemma SetupConfigures<P>(g: Gw<P>, steps: seq<Step>, start: bool, step: Step)
    requires ConfiguredBy(g, steps, start) && Possible(step) && !step.DoSpin?
    ensures ConfiguredBy(Do(g, step), steps + [step], start)
  {
    TogglesFollow(g, steps, start, step);
    forall i | 0 <= i < MAX_SOURCES ensures SourceAs(Do(g, step).sources[i], steps + [step], i) {
      SourceFollows(g, steps, step, i);
    }
    forall j | 0 <= j < MAX_SINKS ensures SinkAs(Do(g, step).sinks[j], steps + [step], j) {
      SinkFollows(g, steps, step, j);
    }
  }

  /** Everything of the state but messages, parsers, counters and log. */
  ghost predicate SameConfig<P>(g: Gw<P>, h: Gw<P>)
    requires Shaped(g) && Shaped(h)
  {
    && h.parser == g.parser && h.policies == g.policies && h.sinks == g.sinks
    && h.policyOn == g.policyOn && h.transformOn == g.transformOn
    && (forall i :: 0 <= i < MAX_SOURCES ==> h.sources[i] == g.sources[i].(cur := h.sources[i].cur))
  }

  lemma SameConfigured<P>(g: Gw<P>, h: Gw<P>, steps: seq<Step>, start: bool)
    requires ConfiguredBy(g, steps, start) && Shaped(h) && SameConfig(g, h)
    ensures ConfiguredBy(h, steps, start)
  {
    forall i | 0 <= i < MAX_SOURCES ensures SourceAs(h.sources[i], steps, i) {
      assert SourceAs(g.sources[i], steps, i);
    }
  }

  lemma ByteKeepsConfig<P>(g: Gw<P>, i: nat, b: byte)
    requires Shaped(g) && i < MAX_SOURCES
    ensures SameConfig(g, Byte(g, i, b))
  {
  }

  // The events are what the steps say.

  lemma SinksEncode<P>(g: Gw<P>, steps: seq<Step>, start: bool, source: nat, mav: Mavlink, j: nat)
    requires ConfiguredBy(g, steps, start) && j in Route(source) && g.sinks[j].routable
    ensures Chain(g.sinks, Route(source), g.transformOn, mav, j + 1) == Encoding(steps, start, j, mav)
    ensures SinkHooked(steps, j)
  {
    assert SinkAs(g.sinks[j], steps, j) && SinkAs(g.sinks[SINK_ENCLAVE], steps, SINK_ENCLAVE);
    DefaultChains(g.sinks, g.transformOn, mav, source);
  }

  lemma FrameEvents<P>(g: Gw<P>, steps: seq<Step>, start: bool, i: nat, mav: Mavlink)
    requires ConfiguredBy(g, steps, start) && i < MAX_SOURCES && g.sources[i].connected
    ensures EventBy(Arrival(g, i, mav), steps, start)
    ensures forall e :: e in FrameLog(g, i, mav) ==> !e.Parsed? && EventBy(e, steps, start)
  {
    assert SourceAs(g.sources[i], steps, i);
    var (counted, msg) := FrameMessage(g, i, mav);
    if Inspect(counted.policies, counted.policyOn, msg.(sinks := Route(i))).0 {
      forall e | e in FrameLog(g, i, mav) ensures !e.Parsed? && EventBy(e, steps, start) {
        DeliveryOf(g.sinks, Route(i), g.transformOn, i, msg.mav, g.policyOn, MAX_SINKS, e);
        SinksEncode(g, steps, start, i, msg.mav, e.sink);
      }
    } else {
      assert FrameLog(g, i, mav) == [Rejected(i, msg.mav)];
      assert EventBy(Rejected(i, msg.mav), steps, start);
    }
  }

  /** The log has grown by events of a spin after `steps`, whose frames are of sources in [lo, hi). */
  ghost predicate Grown(was: seq<Event>, log: seq<Event>, steps: seq<Step>, start: bool, lo: nat, hi: nat) {
    was <= log && forall k :: |was| <= k < |log| ==>
                    EventBy(log[k], steps, start) && (log[k].Parsed? ==> lo <= log[k].slot < hi)
  }

  lemma ByteEvents<P>(g: Gw<P>, steps: seq<Step>, start: bool, i: nat, b: byte)
    requires ConfiguredBy(g, steps, start) && i < MAX_SOURCES && g.sources[i].connected
    ensures var g' := Byte(g, i, b);
            && ConfiguredBy(g', steps, start) && g'.sources[i].connected
            && Grown(g.log, g'.log, steps, start, i, i + 1)
  {
    ByteKeepsConfig(g, i, b);
    SameConfigured(g, Byte(g, i, b), steps, start);
    var out := g.parser.step(g.channels[i], b);
    if out.Framed? {
      FedEvents(g, steps, start, i, b, out.mav);
    }
  }

  lemma FedEvents<P>(g: Gw<P>, steps: seq<Step>, start: bool, i: nat, b: byte, mav: Mavlink)
    requires ConfiguredBy(g, steps, start) && i < MAX_SOURCES && g.sources[i].connected
    ensures Grown(g.log, Frame(Fed(g, i, b), i, mav).log, steps, start, i, i + 1)
  {
    var fed := Fed(g, i, b);
    SameConfigured(g, fed, steps, start);
    FrameAppends(fed, i, mav);
    FrameEvents(fed, steps, start, i, mav);
  }

  lemma {:induction false} BytesEvents<P>(g: Gw<P>, steps: seq<Step>, start: bool, i: nat, bytes: seq<byte>)
    requires ConfiguredBy(g, steps, start) && i < MAX_SOURCES && g.sources[i].connected
    ensures var g' := Bytes(g, i, bytes);
            && ConfiguredBy(g', steps, start) && g'.sources[i].connected
            && Grown(g.log, g'.log, steps, start, i, i + 1)
  {
    if bytes != [] {
      BytesEvents(g, steps, start, i, bytes[..|bytes| - 1]);
      ByteEvents(Bytes(g, i, bytes[..|bytes| - 1]), steps, start, i, bytes[|bytes| - 1]);
    }
  }

  /** The frames among the events from position `n` on are in the order of their sources. */
  ghost predicate InTurn(log: seq<Event>, n: nat) {
    forall a, b :: n <= a < b < |log| && log[a].Parsed? && log[b].Parsed? ==> log[a].slot <= log[b].slot
  }

  lemma {:induction false} TurnsEvents<P>(g: Gw<P>, steps: seq<Step>, start: bool, arrivals: seq<seq<byte>>, n: nat)
    requires ConfiguredBy(g, steps, start) && |arrivals| == MAX_SOURCES && n <= MAX_SOURCES
    ensures var g' := Turns(g, arrivals, n);
            ConfiguredBy(g', steps, start) && Grown(g.log, g'.log, steps, start, 0, n) && InTurn(g'.log, |g.log|)
  {
    if n > 0 {
      TurnsEvents(g, steps, start, arrivals, n - 1);
      LastTurnEvents(g.log, Turns(g, arrivals, n - 1), steps, start, n, arrivals[n - 1]);
    }
  }

  lemma LastTurnEvents<P>(was: seq<Event>, g: Gw<P>, steps: seq<Step>, start: bool, n: nat, bytes: seq<byte>)
    requires ConfiguredBy(g, steps, start) && 0 < n <= MAX_SOURCES
    requires Grown(was, g.log, steps, start, 0, n - 1) && InTurn(g.log, |was|)
    ensures var g' := if g.sources[n - 1].connected then Bytes(g, n - 1, bytes) else g;
            ConfiguredBy(g', steps, start) && Grown(was, g'.log, steps, start, 0, n) && InTurn(g'.log, |was|)
  {
    if g.sources[n - 1].connected {
      BytesEvents(g, steps, start, n - 1, bytes);
      TurnsInOrder(was, g.log, Bytes(g, n - 1, bytes).log, steps, start, n);
    }
  }

  lemma TurnsInOrder(was: seq<Event>, mid: seq<Event>, log: seq<Event>, steps: seq<Step>, start: bool, n: nat)
    requires n > 0 && Grown(was, mid, steps, start, 0, n - 1) && Grown(mid, log, steps, start, n - 1, n)
    requires InTurn(mid, |was|)
    ensures Grown(was, log, steps, start, 0, n) && InTurn(log, |was|)
  {
    assert forall k :: 0 <= k < |mid| ==> log[k] == mid[k];
  }

  /** Over every run from pipeline_init: what is connected, hooked, transformed and switched on is what the
      steps say, and nothing else was touched; and the log grows in spins only, by events that do what the
      steps before the spin say, with the sources served in ascending order. */
  lemma {:induction false} RunIsConfigured<P>(parser: Parser<P>, start: bool, steps: seq<Step>)
    requires AllPossible(steps)
    ensures ConfiguredBy(Reached(parser, start, steps), steps, start)
    ensures steps != [] ==>
              var before, log := steps[..|steps| - 1], Reached(parser, start, steps).log;
              var was := Reached(parser, start, before).log;
              if steps[|steps| - 1].DoSpin? then Grown(was, log, before, start, 0, MAX_SOURCES) && InTurn(log, |was|)
              else log == was
  {
    if steps == [] {
      StartIsConfigured(parser, start);
    } else {
      var before, step := steps[..|steps| - 1], steps[|steps| - 1];
      RunIsConfigured(parser, start, before);
      LastStep(Reached(parser, start, before), before, start, step);
      assert before + [step] == steps;
    }
  }

  lemma LastStep<P>(g: Gw<P>, steps: seq<Step>, start: bool, step: Step)
    requires ConfiguredBy(g, steps, start) && Possible(step)
    ensures var g' := Do(g, step);
            && ConfiguredBy(g', steps + [step], start)
            && if step.DoSpin? then Grown(g.log, g'.log, steps, start, 0, MAX_SOURCES) && InTurn(g'.log, |g.log|)
               else g'.log == g.log
  {
    if step.DoSpin? {
      TurnsEvents(g, steps, start, step.arrivals, MAX_SOURCES);
      SpinsDoNotConfigure(Do(g, step), steps, start, step);
    } else {
      SetupConfigures(g, steps, start, step);
    }
  }

  lemma SpinsDoNotConfigure<P>(g: Gw<P>, steps: seq<Step>, start: bool, step: Step)
    requires ConfiguredBy(g, steps, start) && step.DoSpin?
    ensures ConfiguredBy(g, steps + [step], start)
  {
    HookedMore(steps, step);
    var more := steps + [step];
    assert more[..|steps|] == steps;
    forall i | 0 <= i < MAX_SOURCES ensures SourceAs(g.sources[i], more, i) {
      assert SourceAs(g.sources[i], steps, i);
    }
    forall j | 0 <= j < MAX_SINKS ensures SinkAs(g.sinks[j], more, j) {
      assert SinkAs(g.sinks[j], steps, j);
    }
  }

  /** Every event of every run does what the steps before its spin say: a frame is pushed as the transform
      last added to its source since it was hooked makes it, if the last toggle of the transforms says so; the
      policies are those of the last toggle; and a sink is sent the message as its own transform makes it. */
  lemma {:induction false} EveryEvent<P>(parser: Parser<P>, start: bool, steps: seq<Step>, e: Event)
    requires AllPossible(steps) && e in Reached(parser, start, steps).log
    ensures exists k :: 0 <= k < |steps| && steps[k].DoSpin? && EventBy(e, steps[..k], start)
  {
    RunIsConfigured(parser, start, steps);
    if steps != [] {
      var before := steps[..|steps| - 1];
      var log, was := Reached(parser, start, steps).log, Reached(parser, start, before).log;
      if e in was {
        EveryEvent(parser, start, before, e);
        var k :| 0 <= k < |before| && before[k].DoSpin? && EventBy(e, before[..k], start);
        assert before[..k] == steps[..k];
      } else {
        var k :| 0 <= k < |log| && log[k] == e;
        assert |was| <= k && EventBy(e, steps[..|steps| - 1], start);
      }
    }
  }

  lemma {:induction false} NeverAdded(steps: seq<Step>, j: nat)
    requires forall k :: 0 <= k < |steps| && steps[k].TransformSink? ==> steps[k].id != j
    ensures SinkTransform(steps, j) == None
  {
    if steps != [] {
      NeverAdded(steps[..|steps| - 1], j);
    }
  }

  lemma {:induction false} NoSourceTransform(steps: seq<Step>, i: nat)
    requires forall k :: 0 <= k < |steps| ==> !steps[k].TransformSource?
    ensures SourceTransform(steps, i) == None
  {
    if steps != [] {
      NoSourceTransform(steps[..|steps| - 1], i);
    }
  }

  lemma {:induction false} NoPolicyToggle(steps: seq<Step>)
    requires forall k :: 0 <= k < |steps| ==> !steps[k].SetPolicies?
    ensures PoliciesOn(steps)
  {
    if steps != [] {
      NoPolicyToggle(steps[..|steps| - 1]);
    }
  }

  /** When transforms were added to one sink only, it is sent what its own transform makes of the message, and
      every other sink the message itself. */
  lemma OneSinkEncodes(steps: seq<Step>, start: bool, j: nat, k: nat, mav: Mavlink)
    requires forall i :: 0 <= i < |steps| && steps[i].TransformSink? ==> steps[i].id == j
    ensures Encoding(steps, start, j, mav) == Transformed(TransformsOn(steps, start), SinkTransform(steps, j), mav)
    ensures k != j && (k == SINK_LEGACY ==> j != SINK_ENCLAVE) ==> Encoding(steps, start, k, mav) == mav
  {
    if j != SINK_ENCLAVE {
      NeverAdded(steps, SINK_ENCLAVE);
    }
    if k != j {
      NeverAdded(steps, k);
    }
  }
}
