/** What each sink receives over a whole run, exactly. */
module GatewayExact {
  import opened Common
  import opened SecurityPolicies
  import opened Gateway
  import opened GatewayRuns
  import opened GatewayTheorems

  /** The messages of the sources in `from` that sink `j` got, before its own transform, in order. */
  function ReceivedBy(log: seq<Event>, from: set<nat>, j: nat): seq<Mavlink> {
    if log == [] then [] else
    var e := log[|log| - 1];
    ReceivedBy(log[..|log| - 1], from, j) + (if Is(e, DeliveredTo(j)) && e.source in from then [e.mav] else [])
  }

  /** The same, as the route function of the sink got them. */
  function SentTo(log: seq<Event>, from: set<nat>, j: nat): seq<Mavlink> {
    if log == [] then [] else
    var e := log[|log| - 1];
    SentTo(log[..|log| - 1], from, j) + (if Is(e, DeliveredTo(j)) && e.source in from then [e.sent] else [])
  }

  /** A parsed frame that is meant for sink `j`: routed there, and not forbidden when policies were on. */
  predicate MeantFor(e: Event, j: nat) {
    e.Parsed? && j in Route(e.slot) && !(e.guarded && Untrusted(e.slot) && Forbidden(e.pushed))
  }

  function AllMeantFor(log: seq<Event>, from: set<nat>, j: nat): seq<Mavlink> {
    if log == [] then [] else
    var e := log[|log| - 1];
    AllMeantFor(log[..|log| - 1], from, j) + (if MeantFor(e, j) && e.slot in from then [e.pushed] else [])
  }

  lemma {:induction false} ReceivedAppend(log: seq<Event>, more: seq<Event>, from: set<nat>, j: nat)
    ensures ReceivedBy(log + more, from, j) == ReceivedBy(log, from, j) + ReceivedBy(more, from, j)
    decreases |more|
  {
    if more == [] {
      assert log + more == log;
    } else {
      var n := |more|;
      ReceivedAppend(log, more[..n - 1], from, j);
      assert (log + more)[..|log + more| - 1] == log + more[..n - 1];
    }
  }

  lemma ReceivedOne(log: seq<Event>, e: Event, from: set<nat>, j: nat)
    ensures ReceivedBy(log + [e], from, j)
            == ReceivedBy(log, from, j) + (if Is(e, DeliveredTo(j)) && e.source in from then [e.mav] else [])
    ensures AllMeantFor(log + [e], from, j)
            == AllMeantFor(log, from, j) + (if MeantFor(e, j) && e.slot in from then [e.pushed] else [])
  {
    assert (log + [e])[..|log|] == log;
  }

  lemma {:induction false} MeantSkip(log: seq<Event>, more: seq<Event>, from: set<nat>, j: nat)
    requires forall k :: 0 <= k < |more| ==> !more[k].Parsed?
    ensures AllMeantFor(log + more, from, j) == AllMeantFor(log, from, j)
    decreases |more|
  {
    if more == [] {
      assert log + more == log;
    } else {
      var n := |more|;
      MeantSkip(log, more[..n - 1], from, j);
      assert (log + more)[..|log + more| - 1] == log + more[..n - 1];
    }
  }

  lemma {:induction false} DeliveriesReceived(sinks: seq<Sink>, selected: set<nat>, on: bool, source: nat, mav: Mavlink,
                                              guarded: bool, n: nat, from: set<nat>, j: nat)
    requires n <= |sinks|
    ensures ReceivedBy(Deliveries(sinks, selected, on, source, mav, guarded, n), from, j)
            == if j < n && Chosen(sinks, selected, j) && source in from then [mav] else []
  {
    if n > 0 {
      DeliveriesReceived(sinks, selected, on, source, mav, guarded, n - 1, from, j);
      var e := Delivered(n - 1, source, mav, Chain(sinks, selected, on, mav, n), guarded);
      ReceivedIf(Deliveries(sinks, selected, on, source, mav, guarded, n - 1), e, Chosen(sinks, selected, n - 1),
                 from, j);
    }
  }

  lemma ReceivedIf(log: seq<Event>, e: Event, chosen: bool, from: set<nat>, j: nat)
    requires e.Delivered?
    ensures ReceivedBy(if chosen then log + [e] else log, from, j)
            == ReceivedBy(log, from, j) + (if chosen && e.sink == j && e.source in from then [e.mav] else [])
  {
    ReceivedOne(log, e, from, j);
    assert ReceivedBy(log, from, j) + [] == ReceivedBy(log, from, j);
  }

  /** One frame: a hooked sink receives it exactly when it is meant for it. */
  lemma FrameReceived<P>(g: Gw<P>, i: nat, mav: Mavlink, from: set<nat>, j: nat)
    requires Configured(g) && i < MAX_SOURCES && g.sources[i].connected
    requires j < MAX_SINKS && g.sinks[j].routable
    ensures ReceivedBy(FrameLog(g, i, mav), from, j)
            == if MeantFor(Arrival(g, i, mav), j) && i in from then [Decode(g, i, mav)] else []
  {
    var (counted, msg) := FrameMessage(g, i, mav);
    DefaultVerdict(msg.(sinks := Route(i)));
    DeliveriesReceived(g.sinks, Route(i), g.transformOn, i, msg.mav, g.policyOn, MAX_SINKS, from, j);
    ReceivedOne([], Rejected(i, msg.mav), from, j);
    assert [] + [Rejected(i, msg.mav)] == [Rejected(i, msg.mav)];
  }

  /** Sink `j` is hooked and has received exactly what was meant for it of the sources in `from`. */
  ghost predicate Exact<P>(g: Gw<P>, from: set<nat>, j: nat) {
    && Configured(g) && j < MAX_SINKS && g.sinks[j].routable
    && ReceivedBy(g.log, from, j) == AllMeantFor(g.log, from, j)
  }

  lemma FrameExact<P>(g: Gw<P>, i: nat, mav: Mavlink, from: set<nat>, j: nat)
    requires Exact(g, from, j) && i < MAX_SOURCES && g.sources[i].connected
    ensures Exact(Frame(g, i, mav), from, j) && Frame(g, i, mav).sources[i].connected
  {
    var e, more := Arrival(g, i, mav), FrameLog(g, i, mav);
    FrameAppends(g, i, mav);
    FrameReceived(g, i, mav, from, j);
    ReceivedOne(g.log, e, from, j);
    ReceivedAppend(g.log + [e], more, from, j);
    MeantSkip(g.log + [e], more, from, j);
  }

  lemma ByteExact<P>(g: Gw<P>, i: nat, b: byte, from: set<nat>, j: nat)
    requires Exact(g, from, j) && i < MAX_SOURCES && g.sources[i].connected
    ensures Exact(Byte(g, i, b), from, j) && Byte(g, i, b).sources[i].connected
  {
    var out := g.parser.step(g.channels[i], b);
    if out.Framed? {
      FrameExact(Fed(g, i, b), i, out.mav, from, j);
    }
  }

  lemma {:induction false} BytesExact<P>(g: Gw<P>, i: nat, bytes: seq<byte>, from: set<nat>, j: nat)
    requires Exact(g, from, j) && i < MAX_SOURCES && g.sources[i].connected
    ensures Exact(Bytes(g, i, bytes), from, j) && Bytes(g, i, bytes).sources[i].connected
  {
    if bytes != [] {
      var n := |bytes|;
      BytesExact(g, i, bytes[..n - 1], from, j);
      ByteExact(Bytes(g, i, bytes[..n - 1]), i, bytes[n - 1], from, j);
    }
  }

  lemma {:induction false} TurnsExact<P>(g: Gw<P>, arrivals: seq<seq<byte>>, n: nat, from: set<nat>, j: nat)
    requires Exact(g, from, j) && |arrivals| == MAX_SOURCES && n <= MAX_SOURCES
    ensures Exact(Turns(g, arrivals, n), from, j)
  {
    if n > 0 {
      TurnsExact(g, arrivals, n - 1, from, j);
      var before := Turns(g, arrivals, n - 1);
      if before.sources[n - 1].connected {
        BytesExact(before, n - 1, arrivals[n - 1], from, j);
      }
    }
  }

  lemma DoExact<P>(g: Gw<P>, step: Step, from: set<nat>, j: nat)
    requires Exact(g, from, j) && Possible(step)
    ensures Exact(Do(g, step), from, j)
  {
    if step.DoSpin? {
      TurnsExact(g, step.arrivals, MAX_SOURCES, from, j);
    }
  }

  /** Exact filtering: of any set of sources, one or all, a sink hooked before the first message receives,
      over every run of spins, hooks and toggles, exactly the frames routed to it, in arrival order and
      once each, without those that are forbidden and came from an untrusted source while policies were
      on. */
  lemma {:induction false} SinksReceiveExactly<P>(g: Gw<P>, steps: seq<Step>, from: set<nat>, j: nat)
    requires Good(g) && g.log == [] && AllPossible(steps)
    requires j < MAX_SINKS && g.sinks[j].routable
    ensures var g' := DoAll(g, steps);
            Exact(g', from, j) && ReceivedBy(g'.log, from, j) == AllMeantFor(g'.log, from, j)
  {
    if steps != [] {
      var n := |steps|;
      SinksReceiveExactly(g, steps[..n - 1], from, j);
      DoExact(DoAll(g, steps[..n - 1]), steps[n - 1], from, j);
    }
  }

  // One source, against its frames.

  /** What of the frames of a source goes through: decoded by `d`, without the forbidden ones if the source
      is untrusted. */
  function Through(d: Mavlink -> Mavlink, untrusted: bool, frames: seq<Mavlink>): seq<Mavlink> {
    if frames == [] then [] else
    var before, mav := Through(d, untrusted, frames[..|frames| - 1]), d(frames[|frames| - 1]);
    if untrusted && Forbidden(mav) then before else before + [mav]
  }

  /** Every frame of source `i` was decoded by `d`, with policies on if it is untrusted. */
  ghost predicate DecodedBy(log: seq<Event>, i: nat, d: Mavlink -> Mavlink) {
    forall k :: 0 <= k < |log| && log[k].Parsed? && log[k].slot == i ==>
      log[k].pushed == d(log[k].mav) && (Untrusted(i) ==> log[k].guarded)
  }

  lemma {:induction false} MeantIsThrough(log: seq<Event>, i: nat, d: Mavlink -> Mavlink, j: nat)
    requires DecodedBy(log, i, d) && j in Route(i)
    ensures AllMeantFor(log, {i}, j) == Through(d, Untrusted(i), Frames(log, i))
  {
    if log != [] {
      var before, e := log[..|log| - 1], log[|log| - 1];
      var frames := Frames(before, i);
      MeantIsThrough(before, i, d, j);
      if Is(e, ParsedFrom(i)) {
        assert Frames(log, i) == frames + [e.mav];
        assert (frames + [e.mav])[..|frames|] == frames;
        assert e.pushed == d(e.mav) && (Untrusted(i) ==> e.guarded);
      } else {
        assert Frames(log, i) == frames;
      }
    }
  }

  lemma {:induction false} ThroughPrefix(d: Mavlink -> Mavlink, untrusted: bool, frames: seq<Mavlink>, n: nat)
    requires n <= |frames|
    ensures Through(d, untrusted, frames[..n]) <= Through(d, untrusted, frames)
    decreases |frames|
  {
    if n == |frames| {
      assert frames[..n] == frames;
    } else {
      ThroughPrefix(d, untrusted, frames[..|frames| - 1], n);
      assert frames[..|frames| - 1][..n] == frames[..n];
    }
  }

  /** Messages as transform `c` makes them. */
  function Encoded(c: Mavlink -> Mavlink, messages: seq<Mavlink>): seq<Mavlink> {
    if messages == [] then [] else Encoded(c, messages[..|messages| - 1]) + [c(messages[|messages| - 1])]
  }

  lemma {:induction false} EncodedPrefix(c: Mavlink -> Mavlink, messages: seq<Mavlink>, n: nat)
    requires n <= |messages|
    ensures Encoded(c, messages[..n]) <= Encoded(c, messages)
    decreases |messages|
  {
    if n == |messages| {
      assert messages[..n] == messages;
    } else {
      EncodedPrefix(c, messages[..|messages| - 1], n);
      assert messages[..|messages| - 1][..n] == messages[..n];
    }
  }

  function Unchanged(mav: Mavlink): Mavlink {
    mav
  }

  lemma {:induction false} UnchangedAll(messages: seq<Mavlink>)
    ensures Encoded(Unchanged, messages) == messages
  {
    if messages != [] {
      UnchangedAll(messages[..|messages| - 1]);
    }
  }

  /** From a trusted source every frame goes through. */
  lemma {:induction false} ThroughAll(d: Mavlink -> Mavlink, frames: seq<Mavlink>)
    ensures Through(d, false, frames) == Encoded(d, frames)
  {
    if frames != [] {
      ThroughAll(d, frames[..|frames| - 1]);
    }
  }

  /** Every message to sink `j` was encoded by `c`. */
  ghost predicate EncodedBy(log: seq<Event>, j: nat, c: Mavlink -> Mavlink) {
    forall k :: 0 <= k < |log| && Is(log[k], DeliveredTo(j)) ==> log[k].sent == c(log[k].mav)
  }

  lemma {:induction false} SentIsEncoded(log: seq<Event>, from: set<nat>, j: nat, c: Mavlink -> Mavlink)
    requires EncodedBy(log, j, c)
    ensures SentTo(log, from, j) == Encoded(c, ReceivedBy(log, from, j))
  {
    if log != [] {
      var before, e := log[..|log| - 1], log[|log| - 1];
      var got := ReceivedBy(before, from, j);
      SentIsEncoded(before, from, j, c);
      if Is(e, DeliveredTo(j)) && e.source in from {
        assert (got + [e.mav])[..|got|] == got;
        assert ReceivedBy(log, from, j) == got + [e.mav];
      } else {
        assert ReceivedBy(log, from, j) == got;
      }
    }
  }

  function AllSources(): set<nat> {
    {SOURCE_NULL, SOURCE_VMC, SOURCE_LEGACY, SOURCE_ENCLAVE}
  }

  /** If the other sources sent sink `j` nothing, all it has received is of source `i`. */
  lemma {:induction false} OnlyFrom(log: seq<Event>, i: nat, j: nat)
    requires i in AllSources() && ReceivedBy(log, AllSources() - {i}, j) == []
    ensures ReceivedBy(log, AllSources(), j) == ReceivedBy(log, {i}, j)
    ensures SentTo(log, AllSources(), j) == SentTo(log, {i}, j)
  {
    if log != [] {
      OnlyFrom(log[..|log| - 1], i, j);
    }
  }

  /** Every other source has no route to sink `j`, or has sent no frame. */
  ghost predicate OthersSilent(log: seq<Event>, i: nat, j: nat) {
    forall k :: k in AllSources() && k != i ==> j !in Route(k) || Frames(log, k) == []
  }

  lemma {:induction false} NothingMeant(log: seq<Event>, i: nat, j: nat)
    requires OthersSilent(log, i, j)
    ensures AllMeantFor(log, AllSources() - {i}, j) == []
  {
    if log != [] {
      var before := log[..|log| - 1];
      assert forall k :: Frames(log, k) == [] ==> Frames(before, k) == [];
      assert OthersSilent(before, i, j);
      NothingMeant(before, i, j);
      assert forall k :: Frames(log, k) == [] ==> !Is(log[|log| - 1], ParsedFrom(k));
    }
  }

  lemma RoutesLeaveSilent(log: seq<Event>)
    ensures OthersSilent(log, SOURCE_VMC, SINK_LEGACY) && OthersSilent(log, SOURCE_VMC, SINK_ENCLAVE)
    ensures Frames(log, SOURCE_ENCLAVE) == [] ==> OthersSilent(log, SOURCE_LEGACY, SINK_VMC)
  {
  }

  /** The premises of these results hold after pipeline_init and any hooks, console toggles and
      transformers that precede the first spin, for every sink a hook named. */
  lemma {:induction false} SetupIsQuiet<P>(parser: Parser<P>, transformOn: bool, setup: seq<Step>, source: nat, j: nat)
    requires AllPossible(setup) && j < MAX_SINKS && forall k :: 0 <= k < |setup| ==> !setup[k].DoSpin?
    ensures var g := DoAll(Init(parser, transformOn), setup);
            && Good(g) && g.log == []
            && (DoHook(source, j) in setup ==> g.sinks[j].routable)
  {
    var g := Init(parser, transformOn);
    InitGood(parser, transformOn);
    RunGood(g, setup);
    if setup != [] {
      var n := |setup|;
      SetupIsQuiet(parser, transformOn, setup[..n - 1], source, j);
      QuietStep(DoAll(g, setup[..n - 1]), setup[n - 1], source, j);
      assert setup == setup[..n - 1] + [setup[n - 1]];
    }
  }

  lemma QuietStep<P>(g: Gw<P>, step: Step, source: nat, j: nat)
    requires Shaped(g) && Possible(step) && !step.DoSpin? && j < MAX_SINKS
    ensures Do(g, step).log == g.log
    ensures step == DoHook(source, j) || g.sinks[j].routable ==> Do(g, step).sinks[j].routable
  {
  }
}
