/** The pipeline object of lib/secure_gateway.c, with its loops and its in-place updates, proved to
    compute the functions of module Gateway. */
module Pipeline {
  import opened Common
  import opened SecurityPolicies
  import opened Gateway
  import GatewayTheorems
  import Bitmaps
  import Perf

  const MAX_POLICIES := 16

  /** What became of a call of add_transformer. */
  datatype Added = Stored | AssertionFailed | PastTheEnd

  class Message {
    var mav: Mavlink
    const sinks: Bitmaps.Bitmap
    var source: nat
    var attribute: set<nat>

    ghost function View(): Msg
      reads this, sinks
    {
      Msg(mav, sinks.Set(), source, attribute)
    }

    constructor ()
      ensures View() == NullMsg() && fresh(sinks)
    {
      mav, source, attribute := NullMsg().mav, 0, {};
      sinks := new Bitmaps.Bitmap();
    }
  }

  class SourceSlot {
    var connected: bool
    var id: nat
    const cur: Message
    var transform: Option<Transform>

    ghost function View(): Source
      reads this, cur, cur.sinks
    {
      Source(connected, id, cur.View(), transform)
    }

    constructor ()
      ensures View() == Source(false, 0, NullMsg(), None) && fresh(cur) && fresh(cur.sinks)
    {
      connected, id, transform := false, 0, None;
      cur := new Message();
    }
  }

  /** The words of the default route table. */
  function RouteWords(source: nat): Bitmaps.Words
    requires source < MAX_SOURCES
  {
    if source == SOURCE_VMC
    then [Bitmaps.Or(Bitmaps.OneShifted(SINK_LEGACY), Bitmaps.OneShifted(SINK_ENCLAVE)), Bitmaps.Zero()]
    else if source == SOURCE_LEGACY || source == SOURCE_ENCLAVE then [Bitmaps.OneShifted(SINK_VMC), Bitmaps.Zero()]
    else [Bitmaps.Zero(), Bitmaps.Zero()]
  }

  lemma RouteWordsMeanRoute(source: nat)
    requires source < MAX_SOURCES
    ensures Bitmaps.Members(RouteWords(source)) == Route(source)
  {
    var w := RouteWords(source);
    forall i: nat | i < Bitmaps.CAPACITY
      ensures w[i / Bitmaps.WIDTH][i % Bitmaps.WIDTH] <==> i in Route(source)
    {
    }
  }

  function DefaultRouteTable(): (t: seq<Bitmaps.Words>)
    ensures |t| == MAX_SOURCES && forall s :: 0 <= s < MAX_SOURCES ==> t[s] == RouteWords(s)
  {
    [RouteWords(SOURCE_NULL), RouteWords(SOURCE_VMC), RouteWords(SOURCE_LEGACY), RouteWords(SOURCE_ENCLAVE)]
  }

  predicate Distinct(slots: seq<SourceSlot>) {
    forall i, j :: 0 <= i < j < |slots| ==>
      slots[i] != slots[j] && slots[i].cur != slots[j].cur && slots[i].cur.sinks != slots[j].cur.sinks
  }

  method NewSlots() returns (slots: seq<SourceSlot>)
    ensures |slots| == MAX_SOURCES && Distinct(slots)
    ensures forall i :: 0 <= i < MAX_SOURCES ==>
              && fresh(slots[i]) && fresh(slots[i].cur) && fresh(slots[i].cur.sinks)
              && slots[i].View() == Source(false, 0, NullMsg(), None)
  {
    var s0 := new SourceSlot();
    var s1 := new SourceSlot();
    var s2 := new SourceSlot();
    var s3 := new SourceSlot();
    slots := [s0, s1, s2, s3];
  }

  class PipelineObject<P> {
    const parser: Parser<P>
    var policyEnabled: bool
    var transformEnabled: bool
    const sources: seq<SourceSlot>
    var sinks: seq<Sink>
    var routeTable: seq<Bitmaps.Words>
    var policies: seq<Policy>
    var channels: seq<P>
    const perf: Perf.PerfCounters
    ghost var read: seq<seq<byte>>
    ghost var log: seq<Event>

    ghost function Repr(): set<object> {
      {this, perf} + (if |sources| == MAX_SOURCES then Parts(0) + Parts(1) + Parts(2) + Parts(3) else {})
    }

    ghost function Parts(i: nat): set<object>
      requires i < |sources|
    {
      {sources[i], sources[i].cur, sources[i].cur.sinks}
    }

    ghost predicate Separate() {
      |sources| == MAX_SOURCES && Distinct(sources)
    }

    ghost function View(): Gw<P>
      requires Separate()
      reads Repr()
    {
      Gw(parser, policyEnabled, transformEnabled,
         [sources[0].View(), sources[1].View(), sources[2].View(), sources[3].View()],
         sinks, policies, channels, read, perf.View(), log)
    }

    ghost predicate Valid()
      reads Repr()
    {
      && Separate()
      && Shaped(View())
      && routeTable == DefaultRouteTable()
      && |policies| <= MAX_POLICIES
    }

    /** pipeline_init up to security_policy_init; `transformOn` is what the field happened to hold. */
    constructor (parser: Parser<P>, transformOn: bool)
      ensures Valid() && View() == Init(parser, transformOn).(policies := [])
    {
      var slots := NewSlots();
      this.parser := parser;
      policyEnabled, transformEnabled := true, transformOn;
      sources := slots;
      sinks := All(Sink(false, None));
      routeTable, policies := DefaultRouteTable(), [];
      channels := All(parser.start);
      perf := new Perf.PerfCounters();
      read := All([]);
      log := [];
    }

    method PolicyRegister(id: nat, matches: Msg -> bool, check: Msg -> Verdict)
      requires |policies| < MAX_POLICIES
      modifies this`policies
      ensures policies == old(policies) + [Policy(id, matches, check)]
    {
      policies := policies + [Policy(id, matches, check)];
    }

    /** The end of pipeline_init: the pipeline is then the one of Gateway.Init. */
    method SecurityPolicyInit()
      requires Valid() && policies == []
      modifies this`policies
      ensures Valid() && View() == old(View()).(policies := DefaultPolicies())
    {
      PolicyRegister(0, MatchVmc, CheckAccept);
      PolicyRegister(2, MatchMmc, RejectDisableGeofence);
      PolicyRegister(3, MatchMmc, RejectMeminfo);
    }

    // pipeline_push and its parts.

    method RouteTableRoute(msg: Message)
      requires Valid() && msg.source < MAX_SOURCES
      modifies msg.sinks
      ensures msg.sinks.Set() == Route(msg.source)
    {
      RouteWordsMeanRoute(msg.source);
      msg.sinks.Copy(routeTable[msg.source]);
    }

    method PipelineInspect(msg: Message)
      modifies msg`attribute, msg.sinks
      ensures var (accepted, m) := Inspect(policies, policyEnabled, old(msg.View()));
              && (SINK_DISCARD in msg.sinks.Set() <==> !accepted || SINK_DISCARD in old(msg.sinks.Set()))
              && msg.View() == if accepted then m else m.(sinks := m.sinks + {SINK_DISCARD})
    {
      if policyEnabled == false {
        return;
      }
      InspectKeepsSinks(policies, 0, msg.View());
      ghost var start := InspectFrom(policies, 0, msg.View());
      var i := 0;
      while i < |policies|
        invariant i <= |policies|
        invariant msg.sinks.Set() == old(msg.sinks.Set())
        invariant InspectFrom(policies, i, msg.View()) == start
      {
        var policy := policies[i];
        ghost var before := msg.View();
        var seen := Snapshot(msg);
        if !policy.matches(seen) {
          i := i + 1;
          continue;
        }
        var verdict := policy.check(seen);
        msg.attribute := msg.attribute + verdict.attribute;
        if !verdict.secure {
          msg.sinks.Insert(SINK_DISCARD);
          break;
        }
        i := i + 1;
      }
    }

    /** The message as a policy sees it. */
    method Snapshot(msg: Message) returns (m: Msg)
      ensures m == msg.View()
    {
      m := Msg(msg.mav, Bitmaps.Members(msg.sinks.data), msg.source, msg.attribute);
    }

    /** The delivery loop of pipeline_push: the message is transformed in place from sink to sink. */
    method DeliverToSinks(msg: Message)
      requires |sinks| == MAX_SINKS && Perf.Shaped(perf.View()) && msg.sinks.Set() == Route(msg.source)
      modifies msg`mav, perf`sinks, this`log
      ensures var r, mav := Route(msg.source), old(msg.mav);
              && msg.mav == Chain(sinks, r, transformEnabled, mav, MAX_SINKS)
              && perf.View() == SinkCounts(old(perf.View()), sinks, r, transformEnabled, mav, MAX_SINKS)
              && log == old(log) + Deliveries(sinks, r, transformEnabled, msg.source, mav, policyEnabled, MAX_SINKS)
    {
      ghost var mav, r := msg.mav, Route(msg.source);
      var i := 0;
      while i < MAX_SINKS
        invariant i <= MAX_SINKS
        invariant msg.sinks.Set() == r
        invariant msg.mav == Chain(sinks, r, transformEnabled, mav, i)
        invariant perf.View() == SinkCounts(old(perf.View()), sinks, r, transformEnabled, mav, i)
        invariant log == old(log) + Deliveries(sinks, r, transformEnabled, msg.source, mav, policyEnabled, i)
      {
        var selected := msg.sinks.Test(i);
        if selected {
          if sinks[i].routable {
            SendTo(msg, i, mav);
          }
        }
        i := i + 1;
      }
    }

    /** The sink's transform, in place, and its route function; `mav` is the message as it was pushed. */
    method SendTo(msg: Message, i: nat, ghost mav: Mavlink)
      requires i < |sinks| == MAX_SINKS && Perf.Shaped(perf.View())
      modifies msg`mav, perf`sinks, this`log
      ensures msg.mav == Encode(sinks, transformEnabled, i, old(msg.mav))
      ensures perf.View() == Perf.CountSink(old(perf.View()), i, msg.mav)
      ensures log == old(log) + [Delivered(i, msg.source, mav, msg.mav, policyEnabled)]
      ensures transformEnabled && sinks[i].transform.Some? ==> msg.mav == sinks[i].transform.value(old(msg.mav))
    {
      var sink := sinks[i];
      if transformEnabled && sink.transform.Some? {
        msg.mav := sink.transform.value(msg.mav);
      }
      log := log + [Delivered(i, msg.source, mav, msg.mav, policyEnabled)];
      perf.UpdateSink(i, msg.mav);
    }

    /** The part of pipeline_push that decides. */
    method RouteAndInspect(msg: Message) returns (discard: bool)
      requires Valid() && msg.source < MAX_SOURCES
      modifies msg`attribute, msg.sinks
      ensures var (accepted, m) := Inspect(policies, policyEnabled, old(msg.View()).(sinks := Route(msg.source)));
              && (discard <==> !accepted)
              && msg.View() == if accepted then m else m.(sinks := m.sinks + {SINK_DISCARD})
    {
      ghost var routed := msg.View().(sinks := Route(msg.source));
      RouteTableRoute(msg);
      assert msg.View() == routed;
      PipelineInspect(msg);
      discard := msg.sinks.Test(SINK_DISCARD);
    }

    method PipelinePush(msg: Message)
      requires Valid() && msg.source < MAX_SOURCES
      modifies msg`mav, msg`attribute, msg.sinks, perf`sinks, this`log
      ensures var (g, m) := Push(old(View()), old(msg.View()));
              && perf.View() == g.perf
              && log == g.log
              && msg.View() == m
    {
      InspectKeepsSinks(policies, 0, msg.View().(sinks := Route(msg.source)));
      var discard := RouteAndInspect(msg);
      if discard {
        log := log + [Rejected(msg.source, msg.mav)];
        return;
      }
      DeliverToSinks(msg);
    }

    // pipeline_spin.

    /** The source transform, in place on the source's own message. */
    method DecodeSlot(src: SourceSlot)
      modifies src.cur`mav
      ensures var mav := old(src.cur.mav);
              src.cur.mav == if transformEnabled && src.transform.Some? then src.transform.value(mav) else mav
    {
      if transformEnabled && src.transform.Some? {
        src.cur.mav := src.transform.value(src.cur.mav);
      }
    }

    /** The FRAMING_OK branch up to the push: the source's own message is stamped and decoded in place. */
    method PrepareFrame(i: nat, mav: Mavlink)
      requires Valid() && i < MAX_SOURCES
      modifies sources[i].cur`mav, sources[i].cur`source, perf`sources, this`log
      ensures var (counted, m) := FrameMessage(old(View()), i, mav);
              View() == counted.(sources := counted.sources[i := counted.sources[i].(cur := m)])
      ensures var t := sources[i].transform;
              sources[i].cur.mav == if transformEnabled && t.Some? then t.value(mav) else mav
      ensures sources[i].cur.source == sources[i].id
    {
      SourceViews();
      var msg := sources[i].cur;
      msg.mav := mav;
      msg.source := sources[i].id;
      perf.UpdateSource(i, mav);
      DecodeSlot(sources[i]);
      log := log + [Parsed(i, mav, msg.mav, policyEnabled)];
      OnlySlotChanged(i);
    }

    /** pipeline->push on the source's own message. */
    method PushSlot(i: nat)
      requires Valid() && i < MAX_SOURCES && sources[i].cur.source < MAX_SOURCES
      modifies sources[i].cur, sources[i].cur.sinks, perf`sinks, this`log
      ensures var (g, m) := Push(old(View()), old(sources[i].cur.View()));
              View() == old(View()).(perf := g.perf, log := g.log,
                                     sources := old(View()).sources[i := old(sources[i].View()).(cur := m)])
    {
      PipelinePush(sources[i].cur);
      OnlySlotChanged(i);
    }

    method HandleFrame(i: nat, mav: Mavlink)
      requires Valid() && i < MAX_SOURCES
      modifies sources[i].cur, sources[i].cur.sinks, perf, this`log
      ensures Valid() && View() == Frame(old(View()), i, mav)
    {
      ghost var g := View();
      PrepareFrame(i, mav);
      SourceViews();
      FrameFromPush(g, i, mav, View());
      PushSlot(i);
    }

    /** When only the objects of slot i changed, so did only entry i of the view. */
    twostate lemma OnlySlotChanged(i: nat)
      requires Separate() && i < MAX_SOURCES
      requires forall k :: 0 <= k < MAX_SOURCES && k != i ==>
                 unchanged(sources[k]) && unchanged(sources[k].cur) && unchanged(sources[k].cur.sinks)
      ensures View().sources == old(View()).sources[i := sources[i].View()]
    {
    }

    lemma SourceViews()
      requires Separate()
      ensures forall k :: 0 <= k < MAX_SOURCES ==> View().sources[k] == sources[k].View()
    {
    }

    /** One turn of the inner loop: read_byte gave `b`. */
    method HandleByte(i: nat, b: byte)
      requires Valid() && i < MAX_SOURCES
      modifies sources[i].cur, sources[i].cur.sinks, perf, this`log, this`channels, this`read
      ensures Valid() && View() == Byte(old(View()), i, b)
    {
      var out := parser.step(channels[i], b);
      channels := channels[i := out.next];
      read := read[i := read[i] + [b]];
      match out {
        case Incomplete(_) =>
        case Framed(_, mav) => HandleFrame(i, mav);
        case Failed(_) =>
      }
    }

    /** The inner loop for slot i: has_more says 1 once per byte of `bytes` and then 0. */
    method DrainSource(i: nat, bytes: seq<byte>)
      requires Valid() && i < MAX_SOURCES
      modifies sources[i].cur, sources[i].cur.sinks, perf, this`log, this`channels, this`read
      ensures Valid() && View() == Bytes(old(View()), i, bytes)
    {
      ghost var g := View();
      var k := 0;
      while k < |bytes|
        invariant k <= |bytes|
        invariant Valid() && View() == Bytes(g, i, bytes[..k])
      {
        assert bytes[..k + 1][..k] == bytes[..k];
        HandleByte(i, bytes[k]);
        k := k + 1;
      }
      assert bytes[..|bytes|] == bytes;
    }

    /** One turn of the outer loop. */
    method SpinSource(i: nat, bytes: seq<byte>) returns (loaded: bool)
      requires Valid() && i < MAX_SOURCES
      modifies sources[i].cur, sources[i].cur.sinks, perf, this`log, this`channels, this`read
      ensures Valid()
      ensures var g := old(View());
              && View() == (if g.sources[i].connected then Bytes(g, i, bytes) else g)
              && (loaded <==> g.sources[i].connected && bytes != [])
    {
      SourceViews();
      loaded := sources[i].connected && bytes != [];
      if sources[i].connected {
        DrainSource(i, bytes);
      }
    }

    /** The outer loop of pipeline_spin: `arrivals` is what the sources yield. */
    method SpinSources(arrivals: seq<seq<byte>>) returns (hasLoad: bool)
      requires Valid() && |arrivals| == MAX_SOURCES
      modifies Repr()
      ensures Valid() && View() == Turns(old(View()), arrivals, MAX_SOURCES)
      ensures hasLoad <==> Loaded(old(View()), arrivals, MAX_SOURCES)
    {
      ghost var g := View();
      hasLoad := false;
      var i := 0;
      while i < MAX_SOURCES
        invariant i <= MAX_SOURCES
        invariant Valid() && View() == Turns(g, arrivals, i)
        invariant hasLoad <==> Loaded(g, arrivals, i)
      {
        TurnStep(g, arrivals, i);
        var loaded := SpinSource(i, arrivals[i]);
        hasLoad := hasLoad || loaded;
        i := i + 1;
      }
    }

    /** pipeline_spin, with `clock` for what time_us returns. */
    method PipelineSpin(arrivals: seq<seq<byte>>, clock: Clock)
      requires Valid() && |arrivals| == MAX_SOURCES && clock.tstart <= clock.tend
      modifies Repr()
      ensures Valid() && View() == Spin(old(View()), arrivals, clock)
    {
      var hasLoad := SpinSources(arrivals);
      EndTurn(clock.tend - clock.tstart, hasLoad, clock.now);
    }

    /** The accounting at the end of pipeline_spin. */
    method EndTurn(duration: nat, hasLoad: bool, now: nat)
      requires Valid()
      modifies perf
      ensures Valid() && View() == TurnEnd(old(View()), duration, hasLoad, now)
      ensures perf.exec.total == old(perf.exec.total) + 1
      ensures perf.exec.loadUs == old(perf.exec.loadUs) + (if hasLoad then duration else 0)
    {
      perf.UpdateExec(duration, hasLoad);
      perf.ShowReport(now);
    }

    // Setup and console.

    /** source_allocate and sink_allocate, as hook_tcp, hook_udp, hook_tcpout and hook_uart call them. */
    method HookPort(source: nat, sink: nat)
      requires Valid() && source < MAX_SOURCES && sink < MAX_SINKS
      modifies sources[source], this`sinks
      ensures Valid() && View() == Hook(old(View()), source, sink)
    {
      var src := sources[source];
      src.id, src.transform, src.connected := source, None, true;
      sinks := sinks[sink := Sink(true, None)];
      OnlySlotChanged(source);
    }

    /** hook_stdio_sink sets the route function only. */
    method HookStdioSink(sink: nat)
      requires Valid() && sink < MAX_SINKS
      modifies this`sinks
      ensures Valid() && View() == Do(old(View()), HookSink(sink))
    {
      sinks := sinks[sink := sinks[sink].(routable := true)];
    }

    /** add_transformer. Its own assertion lets an id equal to the number of slots through: for a sink the
        assertion of sink_get then fails, for a source the store goes past the array. */
    method AddTransformer(onSource: bool, id: nat, t: Transform) returns (added: Added)
      requires Valid()
      modifies if id < |sources| then {sources[id]} else {}, this`sinks
      ensures Valid()
      ensures added == Stored <==> id < MAX_SOURCES
      ensures added == PastTheEnd <==> onSource && id == MAX_SOURCES
      ensures View() == if added != Stored then old(View())
                        else Do(old(View()), if onSource then TransformSource(id, t) else TransformSink(id, t))
      ensures added == Stored ==> (if onSource then sources[id].transform else sinks[id].transform) == Some(t)
    {
      if id > (if onSource then MAX_SOURCES else MAX_SINKS) {
        return AssertionFailed;
      }
      if onSource {
        if id == MAX_SOURCES {
          return PastTheEnd;
        }
        sources[id].transform := Some(t);
        OnlySlotChanged(id);
      } else {
        if id == MAX_SINKS {
          return AssertionFailed;
        }
        sinks := sinks[id := sinks[id].(transform := Some(t))];
      }
      added := Stored;
    }

    method EnablePolicies(on: bool)
      requires Valid()
      modifies this`policyEnabled
      ensures Valid() && View() == Do(old(View()), SetPolicies(on))
      ensures policyEnabled == on
    {
      policyEnabled := on;
    }

    method EnableTransforms(on: bool)
      requires Valid()
      modifies this`transformEnabled
      ensures Valid() && View() == Do(old(View()), SetTransforms(on))
      ensures transformEnabled == on
    {
      transformEnabled := on;
    }
  }

  lemma TurnStep<P>(g: Gw<P>, arrivals: seq<seq<byte>>, i: nat)
    requires Shaped(g) && |arrivals| == MAX_SOURCES && i < MAX_SOURCES
    ensures var before := Turns(g, arrivals, i);
            && before.sources[i].connected == g.sources[i].connected
            && Turns(g, arrivals, i + 1)
               == (if before.sources[i].connected then Bytes(before, i, arrivals[i]) else before)
    ensures Loaded(g, arrivals, i + 1) <==> Loaded(g, arrivals, i) || (g.sources[i].connected && arrivals[i] != [])
  {
    GatewayTheorems.TurnsRead(g, arrivals, i, i);
    if g.sources[i].connected && arrivals[i] != [] {
      assert Loaded(g, arrivals, i + 1);
    }
  }

  /** A push reads nothing of the sources, so pushing the stamped message in place is Gateway.Frame. */
  lemma FrameFromPush<P>(g: Gw<P>, i: nat, mav: Mavlink, prepared: Gw<P>)
    requires Shaped(g) && i < MAX_SOURCES && Shaped(prepared)
    requires var (counted, m) := FrameMessage(g, i, mav);
             prepared == counted.(sources := counted.sources[i := counted.sources[i].(cur := m)])
    ensures prepared.sources[i].cur.source < MAX_SOURCES
    ensures var (pushed, m) := Push(prepared, prepared.sources[i].cur);
            Frame(g, i, mav) == prepared.(perf := pushed.perf, log := pushed.log,
                                          sources := g.sources[i := prepared.sources[i].(cur := m)])
  {
  }

  lemma {:induction false} InspectKeepsSinks(policies: seq<Policy>, i: nat, m: Msg)
    requires i <= |policies|
    ensures var r := InspectFrom(policies, i, m); r.1 == m.(attribute := r.1.attribute)
    decreases |policies| - i
  {
    if i < |policies| {
      if policies[i].matches(m) {
        InspectKeepsSinks(policies, i + 1, m.(attribute := m.attribute + policies[i].check(m).attribute));
      } else {
        InspectKeepsSinks(policies, i + 1, m);
      }
    }
  }
}
