/** What the pipeline keeps over every run of spins, hooks and console toggles. */
module GatewayRuns {
  import opened Common
  import opened SecurityPolicies
  import opened Gateway
  import Perf

  // One message.

  /** The deliveries below `n`: one per chosen sink, holding the frame after that sink's transform. */
  lemma {:induction false} DeliveryOf(sinks: seq<Sink>, selected: set<nat>, on: bool, source: nat, mav: Mavlink,
                                      guarded: bool, n: nat, e: Event)
    requires n <= |sinks|
    ensures e in Deliveries(sinks, selected, on, source, mav, guarded, n)
            <==> && e.Delivered? && e.sink < n
                 && Chosen(sinks, selected, e.sink)
                 && e == Delivered(e.sink, source, mav, Chain(sinks, selected, on, mav, e.sink + 1), guarded)
  {
    if n > 0 {
      DeliveryOf(sinks, selected, on, source, mav, guarded, n - 1, e);
    }
  }

  /** Deliveries only, to sinks below `n`, each sink after the one before. */
  ghost predicate Ascending(d: seq<Event>, n: nat) {
    && (forall k :: 0 <= k < |d| ==> d[k].Delivered? && d[k].sink < n)
    && (forall i, k :: 0 <= i < k < |d| ==> d[i].sink < d[k].sink)
  }

  /** No sink gets a message twice. */
  lemma {:induction false} DeliveriesAscend(sinks: seq<Sink>, selected: set<nat>, on: bool, source: nat, mav: Mavlink,
                                            guarded: bool, n: nat)
    requires n <= |sinks|
    ensures Ascending(Deliveries(sinks, selected, on, source, mav, guarded, n), n)
  {
    if n > 0 {
      DeliveriesAscend(sinks, selected, on, source, mav, guarded, n - 1);
    }
  }

  /** Every matching policy accepts the message as the policies before it left it, or policies are off. */
  ghost predicate Passes(policies: seq<Policy>, on: bool, m: Msg) {
    on ==> forall k :: 0 <= k < |policies| ==> Accepts(policies[k], SeenBy(policies, 0, k, m))
  }

  /** What pipeline_push does with a message: if accepted it goes once to each hooked sink of its source's
      route, in ascending order and after the transforms of the sinks before, and nowhere otherwise. */
  ghost predicate PushedAs<P>(g: Gw<P>, msg: Msg, accepted: bool)
    requires Shaped(g) && msg.source < MAX_SOURCES
  {
    var g', r := Push(g, msg).0, Route(msg.source);
    && g.log <= g'.log
    && var events := g'.log[|g.log|..];
       && (forall j: nat :: j < MAX_SINKS ==>
             (DeliveredAmong(events, j) <==> accepted && j in r && g.sinks[j].routable))
       && (accepted ==>
             && Ascending(events, MAX_SINKS)
             && (forall e :: e in events ==> DeliveredAs(g, msg, e)))
       && (!accepted ==> events == [Rejected(msg.source, msg.mav)])
  }

  ghost predicate DeliveredAmong(events: seq<Event>, j: nat) {
    exists e :: e in events && e.Delivered? && e.sink == j
  }

  predicate DeliveredAs<P>(g: Gw<P>, msg: Msg, e: Event)
    requires Shaped(g)
  {
    && e.Delivered? && e.sink < MAX_SINKS
    && var sent := Chain(g.sinks, Route(msg.source), g.transformOn, msg.mav, e.sink + 1);
       e == Delivered(e.sink, msg.source, msg.mav, sent, g.policyOn)
  }

  /** pipeline_push against the pure verdict, for any policy list and any state, whatever the message's
      bitmap and attribute held before. */
  lemma PushVerdict<P>(g: Gw<P>, msg: Msg)
    requires Shaped(g) && msg.source < MAX_SOURCES
    ensures PushedAs(g, msg, Passes(g.policies, g.policyOn, msg.(sinks := Route(msg.source))))
  {
    var routed, r := msg.(sinks := Route(msg.source)), Route(msg.source);
    VerdictIsConjunction(g.policies, 0, routed);
    var g' := Push(g, msg).0;
    if Inspect(g.policies, g.policyOn, routed).0 {
      DeliveriesReach(g, msg);
      assert g'.log[|g.log|..] == Deliveries(g.sinks, r, g.transformOn, msg.source, msg.mav, g.policyOn, MAX_SINKS);
    } else {
      assert g'.log[|g.log|..] == [Rejected(msg.source, msg.mav)];
    }
  }

  lemma DeliveriesReach<P>(g: Gw<P>, msg: Msg)
    requires Shaped(g) && msg.source < MAX_SOURCES
    ensures var r := Route(msg.source);
            var d := Deliveries(g.sinks, r, g.transformOn, msg.source, msg.mav, g.policyOn, MAX_SINKS);
            && Ascending(d, MAX_SINKS)
            && (forall e :: e in d ==> DeliveredAs(g, msg, e))
            && (forall j: nat :: j < MAX_SINKS ==> (DeliveredAmong(d, j) <==> j in r && g.sinks[j].routable))
  {
    var r := Route(msg.source);
    var d := Deliveries(g.sinks, r, g.transformOn, msg.source, msg.mav, g.policyOn, MAX_SINKS);
    DeliveriesAscend(g.sinks, r, g.transformOn, msg.source, msg.mav, g.policyOn, MAX_SINKS);
    forall e ensures e in d <==> DeliveredAs(g, msg, e) && e.sink in r && g.sinks[e.sink].routable {
      DeliveryOf(g.sinks, r, g.transformOn, msg.source, msg.mav, g.policyOn, MAX_SINKS, e);
    }
    forall j: nat | j < MAX_SINKS ensures DeliveredAmong(d, j) <==> j in r && g.sinks[j].routable {
      var e := Delivered(j, msg.source, msg.mav, Chain(g.sinks, r, g.transformOn, msg.mav, j + 1), g.policyOn);
      assert DeliveredAs(g, msg, e);
    }
  }

  /** What pipeline_push leaves in the message, which the next frame of its source starts from: the source is
      kept; an accepted message has its route and is as the last sink got it; a rejected one has DISCARD besides
      and is as it was; and either way the attribute has gathered the bits of all checks that were made. */
  lemma PushLeaves<P>(g: Gw<P>, msg: Msg)
    requires Shaped(g) && msg.source < MAX_SOURCES
    ensures var (g', m), routed := Push(g, msg), msg.(sinks := Route(msg.source));
            && m.source == msg.source && msg.attribute <= m.attribute
            && (!g.policyOn ==> m.attribute == msg.attribute)
            && if Passes(g.policies, g.policyOn, routed)
               then && m.sinks == Route(msg.source)
                    && m.mav == LastSent(g'.log[|g.log|..], msg.mav)
                    && (g.policyOn ==> m.attribute == SeenBy(g.policies, 0, |g.policies|, routed).attribute)
               else && m.sinks == Route(msg.source) + {SINK_DISCARD}
                    && m.mav == msg.mav
                    && exists k :: 0 <= k < |g.policies| && !Accepts(g.policies[k], SeenBy(g.policies, 0, k, routed))
                                   && m.attribute == SeenBy(g.policies, 0, k + 1, routed).attribute
  {
    var routed, r := msg.(sinks := Route(msg.source)), Route(msg.source);
    VerdictIsConjunction(g.policies, 0, routed);
    SeenByDiffersInAttribute(g.policies, 0, |g.policies|, routed);
    var (g', m) := Push(g, msg);
    if Inspect(g.policies, g.policyOn, routed).0 {
      assert g'.log[|g.log|..] == Deliveries(g.sinks, r, g.transformOn, msg.source, msg.mav, g.policyOn, MAX_SINKS);
      ChainIsLastSent(g.sinks, r, g.transformOn, msg.source, msg.mav, g.policyOn, MAX_SINKS);
    } else {
      var k := RejectionIsFirst(g.policies, 0, routed);
      SeenByDiffersInAttribute(g.policies, 0, k + 1, routed);
    }
  }

  /** What the last of the sinks was sent, or `mav` if there was none. */
  function LastSent(events: seq<Event>, mav: Mavlink): Mavlink {
    if events != [] && events[|events| - 1].Delivered? then events[|events| - 1].sent else mav
  }

  lemma {:induction false} ChainIsLastSent(sinks: seq<Sink>, selected: set<nat>, on: bool, source: nat, mav: Mavlink,
                                           guarded: bool, n: nat)
    requires n <= |sinks|
    ensures Chain(sinks, selected, on, mav, n)
            == LastSent(Deliveries(sinks, selected, on, source, mav, guarded, n), mav)
  {
    if n > 0 {
      ChainIsLastSent(sinks, selected, on, source, mav, guarded, n - 1);
    }
  }

  /** A frame of slot `i` is judged with the attribute that the slot's message kept from the frames before it,
      and leaves it what the checks added: nothing resets it. The other slots are left alone. */
  lemma FrameGathers<P>(g: Gw<P>, i: nat, mav: Mavlink)
    requires Shaped(g) && i < MAX_SOURCES
    ensures var src, g' := g.sources[i], Frame(g, i, mav);
            var judged := Msg(Decode(g, i, mav), Route(src.id), src.id, src.cur.attribute);
            && g'.sources[i].cur.source == src.id && src.cur.attribute <= g'.sources[i].cur.attribute
            && (Passes(g.policies, g.policyOn, judged) ==>
                  g'.sources[i].cur.attribute
                  == (if g.policyOn then SeenBy(g.policies, 0, |g.policies|, judged).attribute else src.cur.attribute))
            && (Passes(g.policies, g.policyOn, judged) <==> Rejected(src.id, judged.mav) !in g'.log[|g.log| + 1..])
            && g'.sources == g.sources[i := src.(cur := g'.sources[i].cur)]
  {
    var (counted, msg) := FrameMessage(g, i, mav);
    PushLeaves(counted, msg);
    PushVerdict(counted, msg);
    var log, log' := counted.log, Frame(g, i, mav).log;
    assert log == g.log + [Arrival(g, i, mav)];
  }

  /** When the policies are blind to the attribute, each judges the routed message itself. */
  lemma BlindPushVerdict<P>(g: Gw<P>, msg: Msg)
    requires Shaped(g) && msg.source < MAX_SOURCES
    requires forall k :: 0 <= k < |g.policies| ==> Blind(g.policies[k])
    ensures var routed := msg.(sinks := Route(msg.source));
            PushedAs(g, msg, !g.policyOn || forall k :: 0 <= k < |g.policies| ==> Accepts(g.policies[k], routed))
  {
    var routed := msg.(sinks := Route(msg.source));
    PushVerdict(g, msg);
    VerdictIsConjunction(g.policies, 0, routed);
    BlindVerdict(g.policies, routed);
  }

  /** The transform chain: sink j gets the message after its own transform applied to what the nearest
      chosen sink below it got, and the first chosen sink starts from the untransformed message. */
  lemma {:induction false} ChainLinks(sinks: seq<Sink>, selected: set<nat>, on: bool, mav: Mavlink, i: nat, j: nat)
    requires i < j < |sinks| && Chosen(sinks, selected, j)
    requires forall k :: i < k < j ==> !Chosen(sinks, selected, k)
    ensures Chain(sinks, selected, on, mav, j + 1)
            == Encode(sinks, on, j, if Chosen(sinks, selected, i) then Chain(sinks, selected, on, mav, i + 1)
                                    else Chain(sinks, selected, on, mav, i))
  {
    ChainSkips(sinks, selected, on, mav, i + 1, j);
  }

  lemma {:induction false} ChainSkips(sinks: seq<Sink>, selected: set<nat>, on: bool, mav: Mavlink, i: nat, j: nat)
    requires i <= j <= |sinks| && forall k :: i <= k < j ==> !Chosen(sinks, selected, k)
    ensures Chain(sinks, selected, on, mav, j) == Chain(sinks, selected, on, mav, i)
    decreases j
  {
    if i < j {
      ChainSkips(sinks, selected, on, mav, i, j - 1);
    }
  }

  /** With the default routes at most two sinks are chosen, and what each gets is a composition of at
      most two transforms: only LEGACY can see another sink's encoding, that of ENCLAVE. */
  lemma DefaultChains(sinks: seq<Sink>, on: bool, mav: Mavlink, source: nat)
    requires |sinks| == MAX_SINKS
    ensures var r := Route(source);
            && (SINK_VMC in r ==> sinks[SINK_VMC].routable ==>
                  Chain(sinks, r, on, mav, SINK_VMC + 1) == Encode(sinks, on, SINK_VMC, mav))
            && (SINK_ENCLAVE in r ==> sinks[SINK_ENCLAVE].routable ==>
                  Chain(sinks, r, on, mav, SINK_ENCLAVE + 1) == Encode(sinks, on, SINK_ENCLAVE, mav))
            && (SINK_LEGACY in r ==> sinks[SINK_LEGACY].routable ==>
                  Chain(sinks, r, on, mav, SINK_LEGACY + 1)
                  == Encode(sinks, on, SINK_LEGACY,
                            if sinks[SINK_ENCLAVE].routable then Encode(sinks, on, SINK_ENCLAVE, mav) else mav))
  {
    var r := Route(source);
    ChainSkips(sinks, r, on, mav, 0, 1);
    if source == SOURCE_VMC {
      ChainSkips(sinks, r, on, mav, 0, 2);
    }
  }

  // Runs: the log.

  predicate Untrusted(source: nat) {
    source == SOURCE_LEGACY || source == SOURCE_ENCLAVE
  }

  /** What every entry of the log satisfies. */
  predicate EventOk(e: Event) {
    match e
    case Parsed(slot, _, _, _) => slot < MAX_SOURCES
    case Rejected(source, mav) => Untrusted(source) && Forbidden(mav)
    case Delivered(sink, source, mav, _, guarded) =>
      sink in Route(source) && (guarded && Untrusted(source) ==> !Forbidden(mav))
  }

  datatype Kind = ParsedFrom(slot: nat) | DeliveredTo(sink: nat) | AnyRejected

  predicate Is(e: Event, kind: Kind) {
    match kind
    case ParsedFrom(slot) => e.Parsed? && e.slot == slot
    case DeliveredTo(sink) => e.Delivered? && e.sink == sink
    case AnyRejected => e.Rejected?
  }

  function Count(log: seq<Event>, kind: Kind): nat {
    if log == [] then 0 else Count(log[..|log| - 1], kind) + (if Is(log[|log| - 1], kind) then 1 else 0)
  }

  lemma {:induction false} CountAppend(log: seq<Event>, more: seq<Event>, kind: Kind)
    ensures Count(log + more, kind) == Count(log, kind) + Count(more, kind)
    decreases |more|
  {
    if more == [] {
      assert log + more == log;
    } else {
      CountAppend(log, more[..|more| - 1], kind);
      assert (log + more)[..|log + more| - 1] == log + more[..|more| - 1];
    }
  }

  lemma CountOne(log: seq<Event>, e: Event, kind: Kind)
    ensures Count(log + [e], kind) == Count(log, kind) + (if Is(e, kind) then 1 else 0)
  {
    assert (log + [e])[..|log|] == log;
  }

  /** The frames parsed from one source, in order. */
  function Frames(log: seq<Event>, slot: nat): seq<Mavlink> {
    if log == [] then [] else
    Frames(log[..|log| - 1], slot) + (if Is(log[|log| - 1], ParsedFrom(slot)) then [log[|log| - 1].mav] else [])
  }

  lemma FramesOne(log: seq<Event>, e: Event, slot: nat)
    ensures Frames(log + [e], slot) == Frames(log, slot) + (if Is(e, ParsedFrom(slot)) then [e.mav] else [])
  {
    assert (log + [e])[..|log|] == log;
  }

  lemma {:induction false} FramesSkip(log: seq<Event>, more: seq<Event>, slot: nat)
    requires forall k :: 0 <= k < |more| ==> !more[k].Parsed?
    ensures Frames(log + more, slot) == Frames(log, slot)
    decreases |more|
  {
    if more == [] {
      assert log + more == log;
    } else {
      FramesSkip(log, more[..|more| - 1], slot);
      assert (log + more)[..|log + more| - 1] == log + more[..|more| - 1];
    }
  }

  /** A parser run by itself over the bytes of one source. */
  function ParserAfter<P>(parser: Parser<P>, bytes: seq<byte>): P {
    if bytes == [] then parser.start else
    parser.step(ParserAfter(parser, bytes[..|bytes| - 1]), bytes[|bytes| - 1]).next
  }

  function Parse<P>(parser: Parser<P>, bytes: seq<byte>): seq<Mavlink> {
    if bytes == [] then [] else
    var out := parser.step(ParserAfter(parser, bytes[..|bytes| - 1]), bytes[|bytes| - 1]);
    Parse(parser, bytes[..|bytes| - 1]) + (if out.Framed? then [out.mav] else [])
  }

  // Runs: the invariant.

  ghost predicate Configured<P>(g: Gw<P>) {
    && Shaped(g)
    && g.policies == DefaultPolicies()
    && (forall i :: 0 <= i < MAX_SOURCES ==> g.sources[i].connected ==> g.sources[i].id == i)
  }

  ghost predicate LogOk(log: seq<Event>) {
    forall k :: 0 <= k < |log| ==> EventOk(log[k])
  }

  ghost predicate Demultiplexed<P>(g: Gw<P>)
    requires Shaped(g)
  {
    && (forall i :: 0 <= i < MAX_SOURCES ==> g.channels[i] == ParserAfter(g.parser, g.read[i]))
    && (forall i :: 0 <= i < MAX_SOURCES ==> Frames(g.log, i) == Parse(g.parser, g.read[i]))
  }

  ghost predicate Counted<P>(g: Gw<P>)
    requires Shaped(g)
  {
    && (forall i :: 0 <= i < MAX_SOURCES ==> g.perf.sources[i].succ == Count(g.log, ParsedFrom(i)))
    && (forall j :: 0 <= j < MAX_SINKS ==> g.perf.sinks[j].succ == Count(g.log, DeliveredTo(j)))
  }

  ghost predicate Good<P>(g: Gw<P>) {
    Configured(g) && LogOk(g.log) && Demultiplexed(g) && Counted(g)
  }

  // Runs: preservation.

  /** The log entries a push appends. */
  function PushLog<P>(g: Gw<P>, msg: Msg): seq<Event>
    requires Shaped(g) && msg.source < MAX_SOURCES
  {
    if Inspect(g.policies, g.policyOn, msg.(sinks := Route(msg.source))).0
    then Deliveries(g.sinks, Route(msg.source), g.transformOn, msg.source, msg.mav, g.policyOn, MAX_SINKS)
    else [Rejected(msg.source, msg.mav)]
  }

  lemma PushAppends<P>(g: Gw<P>, msg: Msg)
    requires Shaped(g) && msg.source < MAX_SOURCES
    ensures var g' := Push(g, msg).0;
            && g'.log == g.log + PushLog(g, msg)
            && g' == g.(perf := g'.perf, log := g'.log)
            && g'.perf.sources == g.perf.sources
            && (forall j :: 0 <= j < MAX_SINKS ==>
                  g'.perf.sinks[j].succ == g.perf.sinks[j].succ + Count(PushLog(g, msg), DeliveredTo(j)))
  {
    if Inspect(g.policies, g.policyOn, msg.(sinks := Route(msg.source))).0 {
      SinkCountsMatch(g.perf, g.sinks, Route(msg.source), g.transformOn, msg.source, msg.mav, g.policyOn, MAX_SINKS);
    } else {
      NoDelivery(Rejected(msg.source, msg.mav));
    }
  }

  lemma NoDelivery(e: Event)
    requires e.Rejected?
    ensures forall j :: Count([e], DeliveredTo(j)) == 0
  {
    assert [e][..0] == [];
  }

  /** The sink counters move with the deliveries. */
  lemma {:induction false} SinkCountsMatch(perf: Perf.State, sinks: seq<Sink>, selected: set<nat>, on: bool,
                                           source: nat, mav: Mavlink, guarded: bool, n: nat)
    requires n <= |sinks| == MAX_SINKS && Perf.Shaped(perf)
    ensures var perf' := SinkCounts(perf, sinks, selected, on, mav, n);
            var d := Deliveries(sinks, selected, on, source, mav, guarded, n);
            && perf' == perf.(sinks := perf'.sinks)
            && (forall j :: 0 <= j < MAX_SINKS ==>
                  && perf'.sinks[j].succ == perf.sinks[j].succ + Count(d, DeliveredTo(j))
                  && Perf.Shown(perf'.sinks[j]) == Perf.Shown(perf.sinks[j]))
  {
    if n > 0 {
      SinkCountsMatch(perf, sinks, selected, on, source, mav, guarded, n - 1);
      var before := Deliveries(sinks, selected, on, source, mav, guarded, n - 1);
      var e := Delivered(n - 1, source, mav, Chain(sinks, selected, on, mav, n), guarded);
      forall j | 0 <= j < MAX_SINKS
        ensures Count(before + [e], DeliveredTo(j)) == Count(before, DeliveredTo(j)) + (if j == n - 1 then 1 else 0)
      {
        CountOne(before, e, DeliveredTo(j));
      }
    }
  }

  /** With the default policies, every entry a push appends is in order. */
  lemma PushLogOk<P>(g: Gw<P>, msg: Msg)
    requires Shaped(g) && msg.source < MAX_SOURCES && g.policies == DefaultPolicies()
    ensures LogOk(PushLog(g, msg))
    ensures forall k :: 0 <= k < |PushLog(g, msg)| ==> !PushLog(g, msg)[k].Parsed?
  {
    var r := Route(msg.source);
    DefaultVerdict(msg.(sinks := r));
    var d := Deliveries(g.sinks, r, g.transformOn, msg.source, msg.mav, g.policyOn, MAX_SINKS);
    forall k | 0 <= k < |d|
      ensures d[k].Delivered? && d[k].source == msg.source && d[k].mav == msg.mav && d[k].guarded == g.policyOn
              && d[k].sink in r
    {
      DeliveryOf(g.sinks, r, g.transformOn, msg.source, msg.mav, g.policyOn, MAX_SINKS, d[k]);
    }
  }

  /** A frame appends its parse entry and the entries of its push. */
  lemma FrameAppends<P>(g: Gw<P>, i: nat, mav: Mavlink)
    requires Configured(g) && i < MAX_SOURCES && g.sources[i].connected
    ensures var g', more := Frame(g, i, mav), FrameLog(g, i, mav);
            && Configured(g')
            && g'.log == g.log + [Arrival(g, i, mav)] + more
            && g' == g.(sources := g'.sources, perf := g'.perf, log := g'.log)
            && (forall k :: 0 <= k < MAX_SOURCES ==>
                  g'.sources[k].connected == g.sources[k].connected
                  && g'.perf.sources[k].succ == g.perf.sources[k].succ + (if k == i then 1 else 0))
            && (forall j :: 0 <= j < MAX_SINKS ==>
                  g'.perf.sinks[j].succ == g.perf.sinks[j].succ + Count(more, DeliveredTo(j)))
            && LogOk(more) && (forall k :: 0 <= k < |more| ==> !more[k].Parsed?)
  {
    var (counted, msg) := FrameMessage(g, i, mav);
    PushAppends(counted, msg);
    PushLogOk(counted, msg);
  }

  function FrameLog<P>(g: Gw<P>, i: nat, mav: Mavlink): seq<Event>
    requires Shaped(g) && i < MAX_SOURCES
  {
    var (counted, msg) := FrameMessage(g, i, mav);
    PushLog(counted, msg)
  }

  lemma FrameGood<P>(g: Gw<P>, i: nat, mav: Mavlink)
    requires Configured(g) && LogOk(g.log) && Counted(g) && i < MAX_SOURCES && g.sources[i].connected
    ensures var g' := Frame(g, i, mav);
            && Configured(g') && LogOk(g'.log) && Counted(g')
            && (forall k :: 0 <= k < MAX_SOURCES ==>
                  Frames(g'.log, k) == Frames(g.log, k) + (if k == i then [mav] else []))
  {
    FrameAppends(g, i, mav);
    var e, more := Arrival(g, i, mav), FrameLog(g, i, mav);
    forall kind
      ensures Count(g.log + [e] + more, kind)
              == Count(g.log, kind) + (if Is(e, kind) then 1 else 0) + Count(more, kind)
    {
      CountOne(g.log, e, kind);
      CountAppend(g.log + [e], more, kind);
    }
    forall k: nat ensures Count(more, ParsedFrom(k)) == 0 {
      CountNone(more, ParsedFrom(k));
    }
    forall k | 0 <= k < MAX_SOURCES
      ensures Frames(g.log + [e] + more, k) == Frames(g.log, k) + (if k == i then [mav] else [])
    {
      FramesOne(g.log, e, k);
      FramesSkip(g.log + [e], more, k);
    }
  }

  lemma {:induction false} CountNone(log: seq<Event>, kind: Kind)
    requires forall k :: 0 <= k < |log| ==> !Is(log[k], kind)
    ensures Count(log, kind) == 0
  {
    if log != [] {
      CountNone(log[..|log| - 1], kind);
    }
  }

  /** The state after the parser took a byte, before a frame is handled. */
  function Fed<P>(g: Gw<P>, i: nat, b: byte): Gw<P>
    requires Shaped(g) && i < MAX_SOURCES
  {
    g.(channels := g.channels[i := g.parser.step(g.channels[i], b).next], read := g.read[i := g.read[i] + [b]])
  }

  lemma FedParses<P>(g: Gw<P>, i: nat, b: byte)
    requires Shaped(g) && i < MAX_SOURCES && g.channels[i] == ParserAfter(g.parser, g.read[i])
    ensures var out := g.parser.step(g.channels[i], b);
            && ParserAfter(g.parser, g.read[i] + [b]) == out.next
            && Parse(g.parser, g.read[i] + [b]) == Parse(g.parser, g.read[i]) + (if out.Framed? then [out.mav] else [])
  {
    assert (g.read[i] + [b])[..|g.read[i]|] == g.read[i];
  }

  lemma ByteGood<P>(g: Gw<P>, i: nat, b: byte)
    requires Good(g) && i < MAX_SOURCES && g.sources[i].connected
    ensures Good(Byte(g, i, b))
    ensures forall k :: 0 <= k < MAX_SOURCES ==> Byte(g, i, b).sources[k].connected == g.sources[k].connected
  {
    FedParses(g, i, b);
    var out := g.parser.step(g.channels[i], b);
    if out.Framed? {
      FedFrameGood(g, i, b, out.mav);
    }
  }

  lemma FedFrameGood<P>(g: Gw<P>, i: nat, b: byte, mav: Mavlink)
    requires Good(g) && i < MAX_SOURCES && g.sources[i].connected
    requires ParserAfter(g.parser, g.read[i] + [b]) == g.parser.step(g.channels[i], b).next
    requires Parse(g.parser, g.read[i] + [b]) == Parse(g.parser, g.read[i]) + [mav]
    ensures var g' := Frame(Fed(g, i, b), i, mav);
            && Good(g')
            && forall k :: 0 <= k < MAX_SOURCES ==> g'.sources[k].connected == g.sources[k].connected
  {
    var fed := Fed(g, i, b);
    var g' := Frame(fed, i, mav);
    FrameGood(fed, i, mav);
    FrameAppends(fed, i, mav);
    assert g'.channels == fed.channels && g'.read == fed.read && g'.parser == g.parser;
    forall k | 0 <= k < MAX_SOURCES
      ensures g'.channels[k] == ParserAfter(g.parser, g'.read[k]) && Frames(g'.log, k) == Parse(g.parser, g'.read[k])
    {
      assert k != i ==> fed.channels[k] == g.channels[k] && fed.read[k] == g.read[k];
    }
  }

  lemma {:induction false} BytesGood<P>(g: Gw<P>, i: nat, bytes: seq<byte>)
    requires Good(g) && i < MAX_SOURCES && g.sources[i].connected
    ensures Good(Bytes(g, i, bytes))
    ensures forall k :: 0 <= k < MAX_SOURCES ==> Bytes(g, i, bytes).sources[k].connected == g.sources[k].connected
  {
    if bytes != [] {
      var n := |bytes|;
      BytesGood(g, i, bytes[..n - 1]);
      ByteGood(Bytes(g, i, bytes[..n - 1]), i, bytes[n - 1]);
    }
  }

  lemma {:induction false} TurnsGood<P>(g: Gw<P>, arrivals: seq<seq<byte>>, n: nat)
    requires Good(g) && |arrivals| == MAX_SOURCES && n <= MAX_SOURCES
    ensures Good(Turns(g, arrivals, n))
  {
    if n > 0 {
      TurnsGood(g, arrivals, n - 1);
      var before := Turns(g, arrivals, n - 1);
      if before.sources[n - 1].connected {
        BytesGood(before, n - 1, arrivals[n - 1]);
      }
    }
  }

  lemma DoGood<P>(g: Gw<P>, step: Step)
    requires Good(g) && Possible(step)
    ensures Good(Do(g, step))
  {
    if step.DoSpin? {
      TurnsGood(g, step.arrivals, MAX_SOURCES);
    }
  }

  lemma InitGood<P>(parser: Parser<P>, transformOn: bool)
    ensures Good(Init(parser, transformOn))
  {
  }

  lemma {:induction false} RunGood<P>(g: Gw<P>, steps: seq<Step>)
    requires Good(g) && forall k :: 0 <= k < |steps| ==> Possible(steps[k])
    ensures Good(DoAll(g, steps))
  {
    if steps != [] {
      var n := |steps|;
      RunGood(g, steps[..n - 1]);
      DoGood(DoAll(g, steps[..n - 1]), steps[n - 1]);
    }
  }
}
