/** The pipeline of lib/secure_gateway.c as a function of its state: what a byte, a frame, a spin and a
    hook do. Class Pipeline is proved against these functions; GatewayRuns proves what they keep. */
module Gateway {
  import opened Common
  import opened SecurityPolicies
  import Perf

  /** What mavlink_parse_char does with one byte of a channel in state P: any deterministic parser. */
  datatype Outcome<P> = Incomplete(next: P) | Framed(next: P, mav: Mavlink) | Failed(next: P)

  datatype Parser<!P> = Parser(start: P, step: (P, byte) -> Outcome<P>)

  /** A transform works in place on the frame of a message. */
  type Transform = Mavlink -> Mavlink

  datatype Source = Source(connected: bool, id: nat, cur: Msg, transform: Option<Transform>)

  /** `routable` is `route != NULL`. */
  datatype Sink = Sink(routable: bool, transform: Option<Transform>)

  datatype Event =
    // `pushed` is the frame after the source transform, `guarded` whether policies were on
    | Parsed(slot: nat, mav: Mavlink, pushed: Mavlink, guarded: bool)
    | Rejected(source: nat, mav: Mavlink)
    // `mav` is the message before any sink transform, `sent` what the sink's route function got,
    // `guarded` whether policies were on
    | Delivered(sink: nat, source: nat, mav: Mavlink, sent: Mavlink, guarded: bool)

  /** `read` is every byte read from each source so far; `channels` the parser's state per channel. */
  datatype Gw<!P> = Gw(parser: Parser<P>, policyOn: bool, transformOn: bool,
                       sources: seq<Source>, sinks: seq<Sink>, policies: seq<Policy>,
                       channels: seq<P>, read: seq<seq<byte>>, perf: Perf.State, log: seq<Event>)

  predicate Shaped<P>(g: Gw<P>) {
    && |g.sources| == |g.channels| == |g.read| == MAX_SOURCES
    && |g.sinks| == MAX_SINKS
    && Perf.Shaped(g.perf)
    && (forall i :: 0 <= i < MAX_SOURCES ==> g.sources[i].id < MAX_SOURCES)
  }

  // Delivery.

  predicate Chosen(sinks: seq<Sink>, selected: set<nat>, j: nat)
    requires j < |sinks|
  {
    j in selected && sinks[j].routable
  }

  /** What the transform of sink `j` makes of a frame. */
  function Encode(sinks: seq<Sink>, on: bool, j: nat, mav: Mavlink): Mavlink
    requires j < |sinks|
  {
    if on && sinks[j].transform.Some? then sinks[j].transform.value(mav) else mav
  }

  /** The frame after the transforms of the chosen sinks below `n`, in ascending order. */
  function Chain(sinks: seq<Sink>, selected: set<nat>, on: bool, mav: Mavlink, n: nat): Mavlink
    requires n <= |sinks|
  {
    if n == 0 then mav else
    var m := Chain(sinks, selected, on, mav, n - 1);
    if Chosen(sinks, selected, n - 1) then Encode(sinks, on, n - 1, m) else m
  }

  /** The deliveries to the chosen sinks below `n`. */
  function Deliveries(sinks: seq<Sink>, selected: set<nat>, on: bool, source: nat, mav: Mavlink, guarded: bool,
                      n: nat): seq<Event>
    requires n <= |sinks|
  {
    if n == 0 then [] else
    var before := Deliveries(sinks, selected, on, source, mav, guarded, n - 1);
    if Chosen(sinks, selected, n - 1)
    then before + [Delivered(n - 1, source, mav, Chain(sinks, selected, on, mav, n), guarded)]
    else before
  }

  function SinkCounts(perf: Perf.State, sinks: seq<Sink>, selected: set<nat>, on: bool, mav: Mavlink, n: nat)
      : (perf': Perf.State)
    requires n <= |sinks| <= Perf.UNITS && Perf.Shaped(perf)
    ensures Perf.Shaped(perf')
  {
    if n == 0 then perf else
    var before := SinkCounts(perf, sinks, selected, on, mav, n - 1);
    if Chosen(sinks, selected, n - 1)
    then Perf.CountSink(before, n - 1, Chain(sinks, selected, on, mav, n)) else before
  }

  /** pipeline_push: route, inspect, then discard or deliver. */
  function Push<P>(g: Gw<P>, msg: Msg): (r: (Gw<P>, Msg))
    requires Shaped(g) && msg.source < MAX_SOURCES
    ensures Shaped(r.0)
  {
    var routed := msg.(sinks := Route(msg.source));
    var (accepted, m) := Inspect(g.policies, g.policyOn, routed);
    if !accepted then
      (g.(log := g.log + [Rejected(msg.source, msg.mav)]), m.(sinks := m.sinks + {SINK_DISCARD}))
    else
      (g.(perf := SinkCounts(g.perf, g.sinks, Route(msg.source), g.transformOn, msg.mav, MAX_SINKS),
          log := g.log + Deliveries(g.sinks, Route(msg.source), g.transformOn, msg.source, msg.mav, g.policyOn,
                                    MAX_SINKS)),
       m.(mav := Chain(g.sinks, Route(msg.source), g.transformOn, msg.mav, MAX_SINKS)))
  }

  // Spinning.

  /** What the transform of source `i` makes of a frame. */
  function Decode<P>(g: Gw<P>, i: nat, mav: Mavlink): Mavlink
    requires i < |g.sources|
  {
    if g.transformOn && g.sources[i].transform.Some? then g.sources[i].transform.value(mav) else mav
  }

  function Arrival<P>(g: Gw<P>, i: nat, mav: Mavlink): Event
    requires i < |g.sources|
  {
    Parsed(i, mav, Decode(g, i, mav), g.policyOn)
  }

  /** The state and the message with which a frame is pushed. */
  function FrameMessage<P>(g: Gw<P>, i: nat, mav: Mavlink): (r: (Gw<P>, Msg))
    requires Shaped(g) && i < MAX_SOURCES
    ensures Shaped(r.0) && r.1.source == g.sources[i].id
  {
    var src := g.sources[i];
    (g.(perf := Perf.CountSource(g.perf, i, mav), log := g.log + [Arrival(g, i, mav)]),
     src.cur.(mav := Decode(g, i, mav), source := src.id))
  }

  /** The branch for a complete frame on channel `i`: count it, stamp the source, decode, push. */
  function Frame<P>(g: Gw<P>, i: nat, mav: Mavlink): (g': Gw<P>)
    requires Shaped(g) && i < MAX_SOURCES
    ensures Shaped(g')
  {
    var (counted, msg) := FrameMessage(g, i, mav);
    var (pushed, m) := Push(counted, msg);
    pushed.(sources := pushed.sources[i := pushed.sources[i].(cur := m)])
  }

  function Byte<P>(g: Gw<P>, i: nat, b: byte): (g': Gw<P>)
    requires Shaped(g) && i < MAX_SOURCES
    ensures Shaped(g')
  {
    var out := g.parser.step(g.channels[i], b);
    var g1 := g.(channels := g.channels[i := out.next], read := g.read[i := g.read[i] + [b]]);
    if out.Framed? then Frame(g1, i, out.mav) else g1
  }

  function Bytes<P>(g: Gw<P>, i: nat, bytes: seq<byte>): (g': Gw<P>)
    requires Shaped(g) && i < MAX_SOURCES
    ensures Shaped(g')
  {
    if bytes == [] then g else Byte(Bytes(g, i, bytes[..|bytes| - 1]), i, bytes[|bytes| - 1])
  }

  /** The turns of sources 0 to n - 1; source i yields arrivals[i] before its has_more says 0. */
  function Turns<P>(g: Gw<P>, arrivals: seq<seq<byte>>, n: nat): (g': Gw<P>)
    requires Shaped(g) && |arrivals| == MAX_SOURCES && n <= MAX_SOURCES
    ensures Shaped(g')
  {
    if n == 0 then g else
    var before := Turns(g, arrivals, n - 1);
    if before.sources[n - 1].connected then Bytes(before, n - 1, arrivals[n - 1]) else before
  }

  /** Did any connected source below `n` yield a byte? */
  predicate Loaded<P>(g: Gw<P>, arrivals: seq<seq<byte>>, n: nat)
    requires Shaped(g) && |arrivals| == MAX_SOURCES && n <= MAX_SOURCES
  {
    exists i :: 0 <= i < n && g.sources[i].connected && arrivals[i] != []
  }

  /** The three clock readings of a spin. */
  datatype Clock = Clock(tstart: nat, tend: nat, now: nat)

  /** The accounting at the end of pipeline_spin. */
  function TurnEnd<P>(g: Gw<P>, duration: nat, loaded: bool, now: nat): (g': Gw<P>)
    requires Shaped(g)
    ensures Shaped(g')
  {
    g.(perf := Perf.Show(Perf.CountTurn(g.perf, duration, loaded), now))
  }

  function Spin<P>(g: Gw<P>, arrivals: seq<seq<byte>>, clock: Clock): (g': Gw<P>)
    requires Shaped(g) && |arrivals| == MAX_SOURCES && clock.tstart <= clock.tend
    ensures Shaped(g')
  {
    TurnEnd(Turns(g, arrivals, MAX_SOURCES), clock.tend - clock.tstart, Loaded(g, arrivals, MAX_SOURCES), clock.now)
  }

  // Setup.

  /** A message slot after memset. */
  function NullMsg(): Msg {
    Msg(Mavlink(0, 0, 0, 0, 0, 0.0, BlankParamId(), 0.0), {}, 0, {})
  }

  /** One `x` per slot. */
  function All<T>(x: T): seq<T> {
    [x, x, x, x]
  }

  /** pipeline_init; `transformOn` is what the field happened to hold. */
  function Init<P>(parser: Parser<P>, transformOn: bool): (g: Gw<P>)
    ensures Shaped(g)
  {
    Gw(parser, true, transformOn, All(Source(false, 0, NullMsg(), None)), All(Sink(false, None)),
       DefaultPolicies(), All(parser.start), All([]), Perf.NewPerf(), [])
  }

  /** hook_tcp, hook_udp, hook_tcpout, hook_uart: allocate one source slot and one sink. */
  function Hook<P>(g: Gw<P>, source: nat, sink: nat): (g': Gw<P>)
    requires Shaped(g) && source < MAX_SOURCES && sink < MAX_SINKS
    ensures Shaped(g')
  {
    g.(sources := g.sources[source := Source(true, source, g.sources[source].cur, None)],
       sinks := g.sinks[sink := Sink(true, None)])
  }

  datatype Step =
    | DoSpin(arrivals: seq<seq<byte>>, clock: Clock)
    | SetPolicies(on: bool)                       // console keys e and d
    | SetTransforms(on: bool)                     // console keys t and f
    | DoHook(source: nat, sink: nat)
    | HookSink(sink: nat)                         // hook_stdio_sink
    | TransformSource(id: nat, t: Transform)
    | TransformSink(id: nat, t: Transform)

  predicate Possible(step: Step) {
    match step
    case DoSpin(arrivals, clock) => |arrivals| == MAX_SOURCES && clock.tstart <= clock.tend <= clock.now
    case DoHook(source, sink) => source < MAX_SOURCES && sink < MAX_SINKS
    case HookSink(sink) => sink < MAX_SINKS
    case TransformSource(id, _) => id < MAX_SOURCES
    case TransformSink(id, _) => id < MAX_SINKS
    case _ => true
  }

  function Do<P>(g: Gw<P>, step: Step): (g': Gw<P>)
    requires Shaped(g) && Possible(step)
    ensures Shaped(g')
  {
    match step
    case DoSpin(arrivals, clock) => Spin(g, arrivals, clock)
    case SetPolicies(on) => g.(policyOn := on)
    case SetTransforms(on) => g.(transformOn := on)
    case DoHook(source, sink) => Hook(g, source, sink)
    case HookSink(sink) => g.(sinks := g.sinks[sink := g.sinks[sink].(routable := true)])
    case TransformSource(id, t) => g.(sources := g.sources[id := g.sources[id].(transform := Some(t))])
    case TransformSink(id, t) => g.(sinks := g.sinks[id := g.sinks[id].(transform := Some(t))])
  }

  function DoAll<P>(g: Gw<P>, steps: seq<Step>): (g': Gw<P>)
    requires Shaped(g) && forall k :: 0 <= k < |steps| ==> Possible(steps[k])
    ensures Shaped(g')
  {
    if steps == [] then g else Do(DoAll(g, steps[..|steps| - 1]), steps[|steps| - 1])
  }
}
