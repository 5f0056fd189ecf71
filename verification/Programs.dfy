/** The programs of main.c and test/main-xor.c: what their two ports carry, in every run of all their threads. */
module Programs {
  import opened Common
  import opened SecurityPolicies
  import opened Gateway
  import opened GatewayConfig
  import opened GatewayExact
  import opened GatewayRuns
  import opened GatewayTheorems
  import opened EndToEnd
  import Handoff
  import Uart

  /** Nothing in their loops hooks or toggles anything; the console is a build option. */
  predicate Looping(moves: seq<Move>) {
    forall k :: 0 <= k < |moves| ==> !moves[k].Between?
  }

  lemma {:induction false} LoopIsSteady(done: seq<Step>, on: bool, moves: seq<Move>, i: nat, d: Mavlink -> Mavlink,
                                        sink: nat, c: Mavlink -> Mavlink)
    requires Looping(moves) && CodesBy(done, on, i, d, sink, c)
    ensures Steady(done, on, moves, i, d, sink, c)
    ensures Actions(moves) == []
    decreases |moves|
  {
    if moves != [] {
      assert done + [] == done;
      LoopIsSteady(done, on, moves[1..], i, d, sink, c);
    }
  }

  /** A setup with the autopilot on the VMC port and the legacy ground station on the LEGACY port, in which `d`
      decodes what comes from the autopilot and `c` encodes what is sent to it. */
  ghost predicate TwoPorts(setup: seq<Step>, on: bool, d: Mavlink -> Mavlink, c: Mavlink -> Mavlink) {
    && SinkHooked(setup, SINK_LEGACY) && SinkHooked(setup, SINK_VMC) && !SlotHooked(setup, SOURCE_ENCLAVE)
    && CodesBy(setup, on, SOURCE_VMC, d, SINK_LEGACY, Unchanged)
    && CodesBy(setup, on, SOURCE_LEGACY, Unchanged, SINK_VMC, c)
  }

  /** The start of a program with such a setup. */
  ghost predicate TwoPortStart<P>(j: Joint<P>, d: Mavlink -> Mavlink, c: Mavlink -> Mavlink) {
    && (exists setup, on :: Begun(j, setup, on) && TwoPorts(setup, on, d, c))
    && j.feeds[SOURCE_LEGACY] != Other && j.feeds[SOURCE_VMC] != Other
  }

  lemma UpReceives<P>(j: Joint<P>, setup: seq<Step>, on: bool, moves: seq<Move>, c: Mavlink -> Mavlink)
    requires Begun(j, setup, on) && ValidRun(j, moves) && Looping(moves) && j.feeds[SOURCE_LEGACY] != Other
    requires SinkHooked(setup, SINK_VMC) && !SlotHooked(setup, SOURCE_ENCLAVE)
    requires CodesBy(setup, on, SOURCE_LEGACY, Unchanged, SINK_VMC, c)
    ensures Received(After(j, moves), AllSources(), SINK_VMC, SOURCE_LEGACY, Unchanged, c)
  {
    LoopIsSteady(setup, on, moves, SOURCE_LEGACY, Unchanged, SINK_VMC, c);
    assert setup + [] == setup;
    GroundStationToAutopilot(j, setup, on, moves, Unchanged, c);
  }

  lemma DownReceives<P>(j: Joint<P>, setup: seq<Step>, on: bool, moves: seq<Move>, d: Mavlink -> Mavlink)
    requires Begun(j, setup, on) && ValidRun(j, moves) && Looping(moves) && j.feeds[SOURCE_VMC] != Other
    requires SinkHooked(setup, SINK_LEGACY) && CodesBy(setup, on, SOURCE_VMC, d, SINK_LEGACY, Unchanged)
    ensures Received(After(j, moves), AllSources(), SINK_LEGACY, SOURCE_VMC, d, Unchanged)
  {
    LoopIsSteady(setup, on, moves, SOURCE_VMC, d, SINK_LEGACY, Unchanged);
    AutopilotToSink(j, setup, on, moves, d, SINK_LEGACY, Unchanged);
  }

  lemma TwoPortsReceive<P>(j: Joint<P>, moves: seq<Move>, d: Mavlink -> Mavlink, c: Mavlink -> Mavlink)
    requires TwoPortStart(j, d, c) && ValidRun(j, moves) && Looping(moves)
    ensures Received(After(j, moves), AllSources(), SINK_VMC, SOURCE_LEGACY, Unchanged, c)
    ensures Received(After(j, moves), AllSources(), SINK_LEGACY, SOURCE_VMC, d, Unchanged)
  {
    var setup, on :| Begun(j, setup, on) && TwoPorts(setup, on, d, c);
    UpReceives(j, setup, on, moves, c);
    DownReceives(j, setup, on, moves, d);
  }

  /** What either side has been sent: in order, the first of the messages that the parse of the other side's
      bytes holds, `up` from the ground station and `down` from the autopilot, without the forbidden ones among
      the former, and all of them once nothing is on its way. */
  ghost predicate Carries<P>(t: Joint<P>, up: seq<byte>, down: seq<byte>, d: Mavlink -> Mavlink,
                             c: Mavlink -> Mavlink)
    requires Shapely(t)
  {
    var toAutopilot, toStation := SentTo(t.g.log, AllSources(), SINK_VMC), SentTo(t.g.log, AllSources(), SINK_LEGACY);
    var commands, telemetry := Through(Unchanged, true, Parse(t.g.parser, up)), Parse(t.g.parser, down);
    && toAutopilot <= Encoded(c, commands)
    && (Drained(t, SOURCE_LEGACY) ==> toAutopilot == Encoded(c, commands))
    && toStation <= Encoded(d, telemetry)
    && (Drained(t, SOURCE_VMC) ==> toStation == Encoded(d, telemetry))
  }

  /** The same without transforms. */
  ghost predicate CarriesPlain<P>(t: Joint<P>, up: seq<byte>, down: seq<byte>)
    requires Shapely(t)
  {
    var toAutopilot, toStation := SentTo(t.g.log, AllSources(), SINK_VMC), SentTo(t.g.log, AllSources(), SINK_LEGACY);
    var commands, telemetry := Through(Unchanged, true, Parse(t.g.parser, up)), Parse(t.g.parser, down);
    && toAutopilot <= commands && (Drained(t, SOURCE_LEGACY) ==> toAutopilot == commands)
    && toStation <= telemetry && (Drained(t, SOURCE_VMC) ==> toStation == telemetry)
  }

  lemma PlainlyCarried<P>(t: Joint<P>, up: seq<byte>, down: seq<byte>)
    requires Shapely(t) && Carries(t, up, down, Unchanged, Unchanged)
    ensures CarriesPlain(t, up, down)
  {
    UnchangedAll(Through(Unchanged, true, Parse(t.g.parser, up)));
    UnchangedAll(Parse(t.g.parser, down));
  }

  lemma SpeltOut<P>(t: Joint<P>, d: Mavlink -> Mavlink, c: Mavlink -> Mavlink)
    requires Shapely(t)
    requires Received(t, AllSources(), SINK_VMC, SOURCE_LEGACY, Unchanged, c)
    requires Received(t, AllSources(), SINK_LEGACY, SOURCE_VMC, d, Unchanged)
    ensures Carries(t, Input(t.feeds[SOURCE_LEGACY]), Input(t.feeds[SOURCE_VMC]), d, c)
  {
    var frames := Parse(t.g.parser, Input(t.feeds[SOURCE_VMC]));
    ThroughAll(d, frames);
    UnchangedAll(Encoded(d, frames));
  }

  lemma TwoPortsCarry<P>(j: Joint<P>, moves: seq<Move>, d: Mavlink -> Mavlink, c: Mavlink -> Mavlink)
    requires Shapely(j) && TwoPortStart(j, d, c) && ValidRun(j, moves) && Looping(moves)
    ensures var t := After(j, moves);
            && SameKind(t.feeds[SOURCE_LEGACY], j.feeds[SOURCE_LEGACY])
            && SameKind(t.feeds[SOURCE_VMC], j.feeds[SOURCE_VMC])
            && Carries(t, Input(t.feeds[SOURCE_LEGACY]), Input(t.feeds[SOURCE_VMC]), d, c)
  {
    KindsStay(j, moves);
    TwoPortsReceive(j, moves, d, c);
    SpeltOut(After(j, moves), d, c);
  }

  lemma TwoFeedsStart(setup: seq<Step>, autopilot: Feed, station: Feed)
    requires AllPossible(setup) && forall i :: 0 <= i < |setup| ==> !setup[i].DoSpin?
    requires SlotHooked(setup, SOURCE_VMC) && SlotHooked(setup, SOURCE_LEGACY)
    requires Started(autopilot) && Started(station)
    ensures Startable(setup, [Other, autopilot, station, Other])
  {
  }

  /** main.c: the autopilot on a serial line, the legacy ground station on TCP, and the discarding sink. */
  function MainSetup(): seq<Step> {
    [DoHook(SOURCE_LEGACY, SINK_LEGACY), DoHook(SOURCE_VMC, SINK_VMC), HookSink(SINK_DISCARD)]
  }

  /** `buffer` is what the TCP source's buffer happens to hold. */
  function MainFeeds(buffer: seq<byte>): seq<Feed>
    requires |buffer| == Handoff.BUFFER_SIZE
  {
    [Other, Line(Uart.Start()), Socket(Handoff.Start(Handoff.Tcp, buffer)), Other]
  }

  lemma MainHooks()
    ensures var setup := MainSetup();
            && AllPossible(setup) && (forall i :: 0 <= i < |setup| ==> !setup[i].DoSpin?)
            && SlotHooked(setup, SOURCE_VMC) && SlotHooked(setup, SOURCE_LEGACY) && !SlotHooked(setup, SOURCE_ENCLAVE)
            && SinkHooked(setup, SINK_LEGACY) && SinkHooked(setup, SINK_VMC)
  {
    var setup := MainSetup();
    assert Connects(setup[0], SOURCE_LEGACY) && Connects(setup[1], SOURCE_VMC);
    assert OpensSink(setup[0], SINK_LEGACY) && OpensSink(setup[1], SINK_VMC);
  }

  /** Ports without transforms, and policies as pipeline_init leaves them. */
  lemma PlainCodes(setup: seq<Step>, on: bool, i: nat, sink: nat)
    requires forall k :: 0 <= k < |setup| ==> setup[k].DoHook? || setup[k].HookSink?
    ensures CodesBy(setup, on, i, Unchanged, sink, Unchanged)
  {
    NoPolicyToggle(setup);
    NoSourceTransform(setup, i);
    NeverAdded(setup, sink);
    NeverAdded(setup, SINK_ENCLAVE);
  }

  lemma MainStarts(buffer: seq<byte>)
    requires |buffer| == Handoff.BUFFER_SIZE
    ensures Startable(MainSetup(), MainFeeds(buffer))
  {
    MainHooks();
    TwoFeedsStart(MainSetup(), Line(Uart.Start()), Socket(Handoff.Start(Handoff.Tcp, buffer)));
  }

  ghost function MainStart<P>(parser: Parser<P>, on: bool, buffer: seq<byte>): (j: Joint<P>)
    requires |buffer| == Handoff.BUFFER_SIZE
    ensures Shapely(j)
  {
    MainStarts(buffer);
    Program(parser, on, MainSetup(), MainFeeds(buffer))
  }

  lemma MainIsTwoPorts<P>(parser: Parser<P>, on: bool, buffer: seq<byte>)
    requires |buffer| == Handoff.BUFFER_SIZE
    ensures var j := MainStart(parser, on, buffer);
            TwoPortStart(j, Unchanged, Unchanged) && j.feeds[SOURCE_LEGACY].Socket? && j.feeds[SOURCE_VMC].Line?
  {
    MainStarts(buffer);
    MainHooks();
    var feeds := MainFeeds(buffer);
    assert MainStart(parser, on, buffer) == Program(parser, on, MainSetup(), feeds);
    PlainProgram(parser, on, MainSetup(), feeds);
  }

  lemma PlainProgram<P>(parser: Parser<P>, on: bool, setup: seq<Step>, feeds: seq<Feed>)
    requires Startable(setup, feeds) && forall k :: 0 <= k < |setup| ==> setup[k].DoHook? || setup[k].HookSink?
    requires SinkHooked(setup, SINK_LEGACY) && SinkHooked(setup, SINK_VMC) && !SlotHooked(setup, SOURCE_ENCLAVE)
    requires feeds[SOURCE_LEGACY] != Other && feeds[SOURCE_VMC] != Other
    ensures TwoPortStart(Program(parser, on, setup, feeds), Unchanged, Unchanged)
    ensures Program(parser, on, setup, feeds).feeds == feeds
  {
    PlainCodes(setup, on, SOURCE_VMC, SINK_LEGACY);
    PlainCodes(setup, on, SOURCE_LEGACY, SINK_VMC);
    ProgramIsTwoPorts(parser, on, setup, feeds, Unchanged, Unchanged);
  }

  lemma ProgramIsTwoPorts<P>(parser: Parser<P>, on: bool, setup: seq<Step>, feeds: seq<Feed>,
                             d: Mavlink -> Mavlink, c: Mavlink -> Mavlink)
    requires Startable(setup, feeds) && TwoPorts(setup, on, d, c)
    requires feeds[SOURCE_LEGACY] != Other && feeds[SOURCE_VMC] != Other
    ensures TwoPortStart(Program(parser, on, setup, feeds), d, c)
    ensures Program(parser, on, setup, feeds).feeds == feeds
  {
    ProgramStart(parser, on, setup, feeds);
  }

  /** End to end, in every run of main.c's threads: all the autopilot has been sent is, in order, the first of
      the messages that the parse of the bytes received from the ground station holds, without the forbidden
      ones, and all of them once nothing is on its way; and all the ground station has been sent is the first
      of those that the parse of the bytes taken from the serial line holds, or all of them. */
  lemma MainProgram<P>(parser: Parser<P>, on: bool, buffer: seq<byte>, moves: seq<Move>)
    requires |buffer| == Handoff.BUFFER_SIZE
    requires ValidRun(MainStart(parser, on, buffer), moves) && Looping(moves)
    ensures var t := After(MainStart(parser, on, buffer), moves);
            && t.feeds[SOURCE_LEGACY].Socket? && t.feeds[SOURCE_VMC].Line?
            && CarriesPlain(t, t.feeds[SOURCE_LEGACY].socket.received, t.feeds[SOURCE_VMC].line.out)
  {
    MainIsTwoPorts(parser, on, buffer);
    MainCarries(MainStart(parser, on, buffer), moves);
  }

  lemma MainCarries<P>(j: Joint<P>, moves: seq<Move>)
    requires Shapely(j) && TwoPortStart(j, Unchanged, Unchanged) && ValidRun(j, moves) && Looping(moves)
    requires j.feeds[SOURCE_LEGACY].Socket? && j.feeds[SOURCE_VMC].Line?
    ensures var t := After(j, moves);
            && t.feeds[SOURCE_LEGACY].Socket? && t.feeds[SOURCE_VMC].Line?
            && CarriesPlain(t, t.feeds[SOURCE_LEGACY].socket.received, t.feeds[SOURCE_VMC].line.out)
  {
    var t := After(j, moves);
    TwoPortsCarry(j, moves, Unchanged, Unchanged);
    PlainlyCarried(t, Input(t.feeds[SOURCE_LEGACY]), Input(t.feeds[SOURCE_VMC]));
  }

  /** main-xor.c: both on UDP, with a transform that decodes what comes from the autopilot and one that encodes
      what is sent to it. */
  function XorSetup(decode: Transform, encode: Transform): seq<Step> {
    [DoHook(SOURCE_VMC, SINK_VMC), DoHook(SOURCE_LEGACY, SINK_LEGACY), HookSink(SINK_DISCARD),
     TransformSource(SOURCE_VMC, decode), TransformSink(SINK_VMC, encode), SetTransforms(true)]
  }

  function XorFeeds(buffer: seq<byte>, buffer': seq<byte>): seq<Feed>
    requires |buffer| == |buffer'| == Handoff.BUFFER_SIZE
  {
    [Other, Socket(Handoff.Start(Handoff.Udp, buffer)), Socket(Handoff.Start(Handoff.Udp, buffer')), Other]
  }

  lemma XorHooks(decode: Transform, encode: Transform)
    ensures var setup := XorSetup(decode, encode);
            && AllPossible(setup) && (forall i :: 0 <= i < |setup| ==> !setup[i].DoSpin?)
            && SlotHooked(setup, SOURCE_VMC) && SlotHooked(setup, SOURCE_LEGACY) && !SlotHooked(setup, SOURCE_ENCLAVE)
            && SinkHooked(setup, SINK_LEGACY) && SinkHooked(setup, SINK_VMC)
  {
    var setup := XorSetup(decode, encode);
    assert Connects(setup[0], SOURCE_VMC) && Connects(setup[1], SOURCE_LEGACY);
    assert OpensSink(setup[0], SINK_VMC) && OpensSink(setup[1], SINK_LEGACY);
  }

  lemma XorCodes(on: bool, decode: Transform, encode: Transform)
    ensures var setup := XorSetup(decode, encode);
            && CodesBy(setup, on, SOURCE_VMC, decode, SINK_LEGACY, Unchanged)
            && CodesBy(setup, on, SOURCE_LEGACY, Unchanged, SINK_VMC, encode)
  {
    var setup := XorSetup(decode, encode);
    NoPolicyToggle(setup);
    assert TransformsOn(setup, on);
    NeverAdded(setup, SINK_LEGACY);
    NeverAdded(setup, SINK_ENCLAVE);
    assert setup[..5][..4] == setup[..4] && setup[..4][..3] == setup[..3];
    NoSourceTransform(setup[..3], SOURCE_LEGACY);
    assert SourceTransform(setup[..4], SOURCE_VMC) == Some(decode);
    assert SourceTransform(setup[..4], SOURCE_LEGACY) == None;
    assert SourceTransform(setup[..5], SOURCE_VMC) == Some(decode);
    assert SourceTransform(setup[..5], SOURCE_LEGACY) == None;
    assert SinkTransform(setup[..5], SINK_VMC) == Some(encode);
  }

  lemma XorStarts(buffer: seq<byte>, buffer': seq<byte>, decode: Transform, encode: Transform)
    requires |buffer| == |buffer'| == Handoff.BUFFER_SIZE
    ensures Startable(XorSetup(decode, encode), XorFeeds(buffer, buffer'))
  {
    XorHooks(decode, encode);
    TwoFeedsStart(XorSetup(decode, encode), Socket(Handoff.Start(Handoff.Udp, buffer)),
                  Socket(Handoff.Start(Handoff.Udp, buffer')));
  }

  ghost function XorStart<P>(parser: Parser<P>, on: bool, buffer: seq<byte>, buffer': seq<byte>,
                             decode: Transform, encode: Transform): (j: Joint<P>)
    requires |buffer| == |buffer'| == Handoff.BUFFER_SIZE
    ensures Shapely(j)
  {
    XorStarts(buffer, buffer', decode, encode);
    Program(parser, on, XorSetup(decode, encode), XorFeeds(buffer, buffer'))
  }

  lemma XorIsTwoPorts<P>(parser: Parser<P>, on: bool, buffer: seq<byte>, buffer': seq<byte>,
                         decode: Transform, encode: Transform)
    requires |buffer| == |buffer'| == Handoff.BUFFER_SIZE
    ensures var j := XorStart(parser, on, buffer, buffer', decode, encode);
            TwoPortStart(j, decode, encode) && j.feeds[SOURCE_LEGACY].Socket? && j.feeds[SOURCE_VMC].Socket?
  {
    XorStarts(buffer, buffer', decode, encode);
    XorHooks(decode, encode);
    XorCodes(on, decode, encode);
    var setup, feeds := XorSetup(decode, encode), XorFeeds(buffer, buffer');
    assert XorStart(parser, on, buffer, buffer', decode, encode) == Program(parser, on, setup, feeds);
    ProgramIsTwoPorts(parser, on, setup, feeds, decode, encode);
  }

  /** End to end, in every run of main-xor.c's threads: the ground station has been sent the decoded frames of
      the autopilot, and the autopilot the encoded frames of the ground station, without the forbidden ones,
      judged before they are encoded; in order, and all of them once nothing is on its way. */
  lemma XorProgram<P>(parser: Parser<P>, on: bool, buffer: seq<byte>, buffer': seq<byte>, decode: Transform,
                      encode: Transform, moves: seq<Move>)
    requires |buffer| == |buffer'| == Handoff.BUFFER_SIZE
    requires ValidRun(XorStart(parser, on, buffer, buffer', decode, encode), moves) && Looping(moves)
    ensures var t := After(XorStart(parser, on, buffer, buffer', decode, encode), moves);
            && t.feeds[SOURCE_LEGACY].Socket? && t.feeds[SOURCE_VMC].Socket?
            && Carries(t, t.feeds[SOURCE_LEGACY].socket.received, t.feeds[SOURCE_VMC].socket.received, decode, encode)
  {
    var j := XorStart(parser, on, buffer, buffer', decode, encode);
    XorIsTwoPorts(parser, on, buffer, buffer', decode, encode);
    TwoPortsCarry(j, moves, decode, encode);
  }
}
