/** The threaded sources and the pipeline as one system: the server threads of any number of TCP, TCP-out,
    UDP and UART sources, and the pipeline thread that polls them, hands every byte it reads to the parser
    and does everything else in between. */
module EndToEnd {
  import opened Common
  import opened SecurityPolicies
  import opened Gateway
  import opened GatewayRuns
  import opened GatewayTheorems
  import opened GatewayConfig
  import opened GatewayExact
  import Handoff
  import LossyQueue
  import Perf
  import Uart

  /** What feeds a slot: a socket source, a UART, or something else. */
  datatype Feed = Socket(socket: Handoff.State) | Line(line: Uart.State) | Other

  /** `held` is the byte read_byte returned and mavlink_parse_char has not yet got. */
  datatype Joint<!P> = Joint(g: Gw<P>, feeds: seq<Feed>, held: Option<(nat, byte)>)

  datatype Move =
    | SocketStep(k: nat, step: Handoff.Step)          // of socket k's server, or of the pipeline in its functions
    | LineStep(k: nat, act: Uart.Step)                // the same of UART k, of its sink or of another UART
    | ParseByte                                       // the byte read goes to the parser
    | OtherByte(k: nat, b: byte)                      // a byte from any other source
    | Between(action: Step)                           // a hook, a transformer or a console toggle
    | EndTurn(duration: nat, loaded: bool, now: nat)  // the accounting at the end of a spin

  ghost predicate FeedInv(feed: Feed) {
    match feed
    case Socket(s) => Handoff.Inv(s)
    case Line(u) => Uart.Inv(u)
    case Other => true
  }

  ghost predicate Shapely<P>(j: Joint<P>) {
    && Shaped(j.g) && |j.feeds| == MAX_SOURCES
    && (forall k :: 0 <= k < MAX_SOURCES ==> FeedInv(j.feeds[k]))
    && (j.held.Some? ==> j.held.value.0 < MAX_SOURCES && j.feeds[j.held.value.0] != Other)
  }

  /** The pipeline thread is in no function of this source. */
  predicate Quiet(feed: Feed) {
    match feed
    case Socket(s) => s.consumer == Handoff.Idle
    case Line(u) => u.consumer == Uart.Idle
    case Other => true
  }

  /** The pipeline thread is in no function of a source but those of `k`. */
  ghost predicate AtRestBut<P>(j: Joint<P>, k: nat)
    requires Shapely(j)
  {
    forall i :: 0 <= i < MAX_SOURCES && i != k ==> Quiet(j.feeds[i])
  }

  /** The pipeline thread is in no function of a source and holds no byte of one. */
  ghost predicate AtRest<P>(j: Joint<P>)
    requires Shapely(j)
  {
    j.held == None && AtRestBut(j, MAX_SOURCES)
  }

  /** The steps of the UART model that the pipeline thread takes, its sink's stores included. */
  predicate IsPipelineStep(act: Uart.Step) {
    act.HasMore? || act.ReadByte? || act.SinkByte?
  }

  ghost predicate Enabled<P>(j: Joint<P>, move: Move)
    requires Shapely(j)
  {
    match move
    case SocketStep(k, step) =>
      && k < MAX_SOURCES && j.feeds[k].Socket? && Handoff.Enabled(j.feeds[k].socket, step)
      && (Handoff.IsServerStep(step) || (AtRestBut(j, k) && (j.held == None || step == Handoff.Unlock)))
    case LineStep(k, act) =>
      && k < MAX_SOURCES && j.feeds[k].Line? && Uart.Enabled(j.feeds[k].line, act)
      && (IsPipelineStep(act) ==> AtRestBut(j, k) && j.held == None)
    case ParseByte => j.held.Some? && Quiet(j.feeds[j.held.value.0])
    case OtherByte(k, _) => k < MAX_SOURCES && j.feeds[k] == Other && j.g.sources[k].connected && AtRest(j)
    case Between(action) =>
      Possible(action) && !action.DoSpin? && (action.DoHook? ==> j.feeds[action.source] == Other) && AtRest(j)
    case EndTurn(_, _, _) => AtRest(j)
  }

  /** What the locked section of a socket's read_byte returns. */
  function Returned(s: Handoff.State): byte {
    if 0 <= s.cur < s.size && s.cur < |s.buffer| then s.buffer[s.cur] else 0
  }

  /** What the pop of uart_read_byte returns. */
  function Popped(u: Uart.State): byte {
    if u.ring == [] then 0 else u.ring[0]
  }

  ghost function Next<P>(j: Joint<P>, move: Move): (j': Joint<P>)
    requires Shapely(j) && Enabled(j, move)
    ensures Shapely(j')
  {
    match move
    case SocketStep(k, step) =>
      Handoff.InvStep(j.feeds[k].socket, step);
      j.(feeds := j.feeds[k := Socket(Handoff.Next(j.feeds[k].socket, step))],
         held := if step == Handoff.TakeByte then Some((k, Returned(j.feeds[k].socket))) else j.held)
    case LineStep(k, act) =>
      Uart.InvStep(j.feeds[k].line, act);
      j.(feeds := j.feeds[k := Line(Uart.Next(j.feeds[k].line, act))],
         held := if act == Uart.ReadByte then Some((k, Popped(j.feeds[k].line))) else j.held)
    case ParseByte => j.(g := Byte(j.g, j.held.value.0, j.held.value.1), held := None)
    case OtherByte(k, b) => j.(g := Byte(j.g, k, b))
    case Between(action) => j.(g := Do(j.g, action))
    case EndTurn(duration, loaded, now) => j.(g := TurnEnd(j.g, duration, loaded, now))
  }

  /** What the pipeline thread holds of source `k`. */
  function HeldOf<P>(j: Joint<P>, k: nat): seq<byte> {
    if j.held.Some? && j.held.value.0 == k then [j.held.value.1] else []
  }

  /** Everything read_byte of this source has returned. */
  function Given(feed: Feed): seq<byte> {
    match feed
    case Socket(s) => s.delivered
    case Line(u) => u.out
    case Other => []
  }

  /** Slot `k` and its source agree: all that was handed over has been read, or is held. */
  ghost predicate Linked<P>(j: Joint<P>, k: nat)
    requires Shapely(j) && k < MAX_SOURCES
  {
    j.feeds[k] != Other ==> j.g.sources[k].connected && j.g.read[k] + HeldOf(j, k) == Given(j.feeds[k])
  }

  ghost predicate Inv<P>(j: Joint<P>) {
    && Shapely(j) && Good(j.g)
    && (forall k :: 0 <= k < MAX_SOURCES ==> Linked(j, k))
  }

  // The start.

  /** A source as its init function leaves it. */
  ghost predicate Started(feed: Feed) {
    match feed
    case Socket(s) => |s.buffer| == Handoff.BUFFER_SIZE && s == Handoff.Start(s.flavour, s.buffer)
    case Line(u) => u == Uart.Start()
    case Other => true
  }

  /** The slots of the threaded sources are hooked, and nothing has been read from them. */
  ghost predicate ReadyFor<P>(g: Gw<P>, feeds: seq<Feed>)
    requires |feeds| == MAX_SOURCES
  {
    && Good(g) && g.log == []
    && (forall k :: 0 <= k < MAX_SOURCES && feeds[k] != Other ==> g.sources[k].connected && g.read[k] == [])
  }

  ghost predicate Initial<P>(j: Joint<P>) {
    && |j.feeds| == MAX_SOURCES && j.held == None
    && ReadyFor(j.g, j.feeds)
    && (forall k :: 0 <= k < MAX_SOURCES ==> Started(j.feeds[k]))
  }

  lemma InitialInv<P>(j: Joint<P>)
    requires Initial(j)
    ensures Inv(j)
  {
  }

  /** pipeline_init and any setup read nothing, and connect exactly the slots that a hook named. */
  lemma {:induction false} SetupConnects<P>(parser: Parser<P>, on: bool, setup: seq<Step>, k: nat)
    requires AllPossible(setup) && k < MAX_SOURCES && forall i :: 0 <= i < |setup| ==> !setup[i].DoSpin?
    ensures var g := DoAll(Init(parser, on), setup);
            g.read[k] == [] && (g.sources[k].connected <==> SlotHooked(setup, k))
  {
    if setup != [] {
      var before, step := setup[..|setup| - 1], setup[|setup| - 1];
      SetupConnects(parser, on, before, k);
      DoReads(DoAll(Init(parser, on), before), step, k);
      DoConnects(DoAll(Init(parser, on), before), step, k);
      HookedMore(before, step);
      assert before + [step] == setup;
    }
  }

  /** Hooks, toggles and transformers before the first spin, and sources as their init functions leave them,
      each in a slot that was hooked. */
  ghost predicate Startable(setup: seq<Step>, feeds: seq<Feed>) {
    && AllPossible(setup) && (forall i :: 0 <= i < |setup| ==> !setup[i].DoSpin?)
    && |feeds| == MAX_SOURCES
    && (forall k :: 0 <= k < MAX_SOURCES ==> Started(feeds[k]) && (feeds[k] != Other ==> SlotHooked(setup, k)))
  }

  /** A start that is configured by `setup`. */
  ghost predicate Begun<P>(j: Joint<P>, setup: seq<Step>, on: bool) {
    && Initial(j) && ConfiguredBy(j.g, setup, on)
    && (forall k :: 0 <= k < MAX_SOURCES ==> j.g.read[k] == [])
  }

  /** The start of the program: pipeline_init and such a setup. */
  ghost function Program<P>(parser: Parser<P>, on: bool, setup: seq<Step>, feeds: seq<Feed>): (j: Joint<P>)
    requires Startable(setup, feeds)
    ensures Shapely(j)
  {
    Joint(DoAll(Init(parser, on), setup), feeds, None)
  }

  lemma ProgramStart<P>(parser: Parser<P>, on: bool, setup: seq<Step>, feeds: seq<Feed>)
    requires Startable(setup, feeds)
    ensures Begun(Program(parser, on, setup, feeds), setup, on)
    ensures Program(parser, on, setup, feeds).g.parser == parser && Program(parser, on, setup, feeds).feeds == feeds
  {
    SetupIsQuiet(parser, on, setup, 0, 0);
    RunIsConfigured(parser, on, setup);
    RunReads(Init(parser, on), setup, 0);
    forall k | 0 <= k < MAX_SOURCES {
      SetupConnects(parser, on, setup, k);
    }
  }

  // Every move keeps the link.

  lemma StepGives(s: Handoff.State, step: Handoff.Step)
    requires Handoff.Inv(s) && Handoff.Enabled(s, step)
    ensures Handoff.Next(s, step).delivered == s.delivered + (if step == Handoff.TakeByte then [Returned(s)] else [])
  {
  }

  lemma LineGives(u: Uart.State, act: Uart.Step)
    requires Uart.Inv(u) && Uart.Enabled(u, act)
    ensures Uart.Next(u, act).out == u.out + (if act == Uart.ReadByte then [Popped(u)] else [])
  {
  }

  /** A step of source `k`: what it gives is what is then held of it. */
  lemma SourceKeeps<P>(j: Joint<P>, k: nat, feed: Feed, taken: Option<byte>)
    requires Inv(j) && k < MAX_SOURCES && j.feeds[k] != Other && feed != Other && FeedInv(feed)
    requires taken.Some? ==> j.held == None
    requires Given(feed) == Given(j.feeds[k]) + (if taken.Some? then [taken.value] else [])
    ensures Inv(j.(feeds := j.feeds[k := feed], held := if taken.Some? then Some((k, taken.value)) else j.held))
  {
    var j' := j.(feeds := j.feeds[k := feed], held := if taken.Some? then Some((k, taken.value)) else j.held);
    forall i | 0 <= i < MAX_SOURCES ensures Linked(j', i) {
      assert Linked(j, i);
      assert j.g.read[i] + [] == j.g.read[i];
    }
  }

  lemma ThreadKeeps<P>(j: Joint<P>, move: Move)
    requires Inv(j) && Enabled(j, move) && (move.SocketStep? || move.LineStep?)
    ensures Inv(Next(j, move))
  {
    match move {
      case SocketStep(k, step) =>
        var s := j.feeds[k].socket;
        Handoff.InvStep(s, step);
        StepGives(s, step);
        SourceKeeps(j, k, Socket(Handoff.Next(s, step)), if step == Handoff.TakeByte then Some(Returned(s)) else None);
      case LineStep(k, act) =>
        var u := j.feeds[k].line;
        Uart.InvStep(u, act);
        LineGives(u, act);
        SourceKeeps(j, k, Line(Uart.Next(u, act)), if act == Uart.ReadByte then Some(Popped(u)) else None);
    }
  }

  lemma ByteKeeps<P>(g: Gw<P>, k: nat, b: byte)
    requires Good(g) && k < MAX_SOURCES && g.sources[k].connected
    ensures var g' := Byte(g, k, b);
            && Good(g') && g'.read == g.read[k := g.read[k] + [b]]
            && (forall i :: 0 <= i < MAX_SOURCES ==> g'.sources[i].connected == g.sources[i].connected)
  {
    ByteGood(g, k, b);
    ByteReads(g, k, b);
  }

  lemma ParseKeeps<P>(j: Joint<P>)
    requires Inv(j) && Enabled(j, ParseByte)
    ensures Inv(Next(j, ParseByte))
  {
    var j' := Next(j, ParseByte);
    assert Linked(j, j.held.value.0);
    ByteKeeps(j.g, j.held.value.0, j.held.value.1);
    forall i | 0 <= i < MAX_SOURCES ensures Linked(j', i) {
      assert Linked(j, i);
      assert j'.g.read[i] == j.g.read[i] + HeldOf(j, i);
      assert j'.g.read[i] + [] == j'.g.read[i];
    }
  }

  lemma OtherKeeps<P>(j: Joint<P>, move: Move)
    requires Inv(j) && Enabled(j, move) && !move.SocketStep? && !move.LineStep? && !move.ParseByte?
    ensures Inv(Next(j, move))
  {
    var j' := Next(j, move);
    match move {
      case OtherByte(k, b) => ByteKeeps(j.g, k, b);
      case Between(action) => DoGood(j.g, action);
      case EndTurn(duration, loaded, now) => Perf.ShowKeeps(Perf.CountTurn(j.g.perf, duration, loaded), now);
    }
    forall i | 0 <= i < MAX_SOURCES ensures Linked(j', i) {
      assert Linked(j, i);
      if move.Between? {
        DoConnects(j.g, move.action, i);
      }
    }
  }

  lemma InvMove<P>(j: Joint<P>, move: Move)
    requires Inv(j) && Enabled(j, move)
    ensures Inv(Next(j, move))
  {
    match move {
      case SocketStep(_, _) => ThreadKeeps(j, move);
      case LineStep(_, _) => ThreadKeeps(j, move);
      case ParseByte => ParseKeeps(j);
      case _ => OtherKeeps(j, move);
    }
  }

  // Runs.

  ghost predicate ValidRun<P>(j: Joint<P>, moves: seq<Move>)
    requires Shapely(j)
    decreases |moves|
  {
    moves == [] || (Enabled(j, moves[0]) && ValidRun(Next(j, moves[0]), moves[1..]))
  }

  ghost function After<P>(j: Joint<P>, moves: seq<Move>): (j': Joint<P>)
    requires Shapely(j) && ValidRun(j, moves)
    ensures Shapely(j')
    decreases |moves|
  {
    if moves == [] then j else After(Next(j, moves[0]), moves[1..])
  }

  predicate SameKind(a: Feed, b: Feed) {
    (a.Socket? <==> b.Socket?) && (a.Line? <==> b.Line?)
  }

  lemma {:induction false} InvRun<P>(j: Joint<P>, moves: seq<Move>)
    requires Inv(j) && ValidRun(j, moves)
    ensures Inv(After(j, moves))
    ensures forall k :: 0 <= k < MAX_SOURCES ==> SameKind(After(j, moves).feeds[k], j.feeds[k])
    decreases |moves|
  {
    if moves != [] {
      InvMove(j, moves[0]);
      InvRun(Next(j, moves[0]), moves[1..]);
    }
  }

  // From the sources to the frames.

  lemma {:induction false} ParseOfPrefix<P>(parser: Parser<P>, bytes: seq<byte>, n: nat)
    requires n <= |bytes|
    ensures Parse(parser, bytes[..n]) <= Parse(parser, bytes)
    decreases |bytes|
  {
    if n == |bytes| {
      assert bytes[..n] == bytes;
    } else {
      var init := bytes[..|bytes| - 1];
      ParseOfPrefix(parser, init, n);
      assert init[..n] == bytes[..n];
    }
  }

  /** What the threads of a source have put forward: the bytes recv returned, or those read_byte of the UART
      has handed over. */
  function Input(feed: Feed): seq<byte> {
    match feed
    case Socket(s) => s.received
    case Line(u) => u.out
    case Other => []
  }

  /** Nothing of source `k` is on its way: no byte waits in its buffer, and none is held. */
  ghost predicate Drained<P>(j: Joint<P>, k: nat)
    requires Shapely(j) && k < MAX_SOURCES
  {
    HeldOf(j, k) == [] && (j.feeds[k].Socket? ==> Handoff.Outstanding(j.feeds[k].socket) == [])
  }

  lemma ReadOfInput<P>(j: Joint<P>, k: nat)
    requires Inv(j) && k < MAX_SOURCES && j.feeds[k] != Other
    ensures var input := Input(j.feeds[k]);
            && |j.g.read[k]| <= |input| && j.g.read[k] == input[..|j.g.read[k]|]
            && (Drained(j, k) ==> j.g.read[k] == input)
  {
    assert Linked(j, k);
    var given := Given(j.feeds[k]);
    assert given[..|j.g.read[k]|] == j.g.read[k];
    if j.feeds[k].Socket? {
      var s := j.feeds[k].socket;
      assert s.received == s.delivered + Handoff.Outstanding(s);
    }
  }

  /** From a source to the frames, in every run of all threads together: the frames of a threaded source are
      the first ones of the parse of everything its recv calls returned, or of what its read_byte took from
      the UART, and all of them once nothing is on its way. */
  lemma SourceToFrames<P>(j: Joint<P>, moves: seq<Move>, k: nat)
    requires Initial(j) && ValidRun(j, moves) && k < MAX_SOURCES && j.feeds[k] != Other
    ensures var t := After(j, moves);
            && Inv(t) && SameKind(t.feeds[k], j.feeds[k])
            && Frames(t.g.log, k) <= Parse(t.g.parser, Input(t.feeds[k]))
            && (Drained(t, k) ==> Frames(t.g.log, k) == Parse(t.g.parser, Input(t.feeds[k])))
  {
    InitialInv(j);
    InvRun(j, moves);
    FramesOfInput(After(j, moves), k);
  }

  lemma FramesOfInput<P>(j: Joint<P>, k: nat)
    requires Inv(j) && k < MAX_SOURCES && j.feeds[k] != Other
    ensures Frames(j.g.log, k) <= Parse(j.g.parser, Input(j.feeds[k]))
    ensures Drained(j, k) ==> Frames(j.g.log, k) == Parse(j.g.parser, Input(j.feeds[k]))
  {
    ReadOfInput(j, k);
    ParseOfPrefix(j.g.parser, Input(j.feeds[k]), |j.g.read[k]|);
    assert Frames(j.g.log, k) == Parse(j.g.parser, j.g.read[k]);
  }

  /** Every step of UART `k` in the run is harmless to its bytes. */
  ghost predicate LineUnharmed<P>(j: Joint<P>, moves: seq<Move>, k: nat)
    requires Shapely(j) && ValidRun(j, moves) && k < MAX_SOURCES && j.feeds[k].Line?
    decreases |moves|
  {
    moves == [] ||
    ((moves[0].LineStep? && moves[0].k == k ==> Uart.Harmless(j.feeds[k].line, moves[0].act))
     && LineUnharmed(Next(j, moves[0]), moves[1..], k))
  }

  lemma {:induction false} LineIntact<P>(j: Joint<P>, moves: seq<Move>, k: nat)
    requires Inv(j) && ValidRun(j, moves) && k < MAX_SOURCES && j.feeds[k].Line?
    requires Uart.Intact(j.feeds[k].line) && LineUnharmed(j, moves, k)
    ensures After(j, moves).feeds[k].Line? && Uart.Intact(After(j, moves).feeds[k].line)
    decreases |moves|
  {
    if moves != [] {
      InvMove(j, moves[0]);
      if moves[0].LineStep? && moves[0].k == k {
        Uart.IntactStep(j.feeds[k].line, moves[0].act);
      }
      LineIntact(Next(j, moves[0]), moves[1..], k);
    }
  }

  /** From the device to the frames: if in addition no sink byte and no other UART's read harms the bytes, the
      frames of a UART are the first ones of the parse of device bytes at strictly increasing positions. */
  lemma DeviceToFrames<P>(j: Joint<P>, moves: seq<Move>, k: nat)
    requires Initial(j) && ValidRun(j, moves) && k < MAX_SOURCES && j.feeds[k].Line?
    requires LineUnharmed(j, moves, k)
    ensures var t := After(j, moves);
            && t.feeds[k].Line?
            && var u := t.feeds[k].line;
               && Uart.Inv(u)
               && LossyQueue.IncreasingBelow(u.stream.taken, |u.stream.written|)
               && Frames(t.g.log, k) <= Parse(t.g.parser, LossyQueue.Delivered(u.stream))
               && (HeldOf(t, k) == [] ==> Frames(t.g.log, k) == Parse(t.g.parser, LossyQueue.Delivered(u.stream)))
  {
    SourceToFrames(j, moves, k);
    LineIntact(j, moves, k);
  }

  // From the sources to the sinks.

  /** Of any set of sources, a sink hooked at the start has received, over every run, exactly the messages
      meant for it. */
  lemma {:induction false} SinkReceivesExactly<P>(j: Joint<P>, moves: seq<Move>, from: set<nat>, sink: nat)
    requires Inv(j) && ValidRun(j, moves) && Exact(j.g, from, sink)
    ensures Exact(After(j, moves).g, from, sink)
    decreases |moves|
  {
    if moves != [] {
      InvMove(j, moves[0]);
      MoveExact(j, moves[0], from, sink);
      SinkReceivesExactly(Next(j, moves[0]), moves[1..], from, sink);
    }
  }

  lemma MoveExact<P>(j: Joint<P>, move: Move, from: set<nat>, sink: nat)
    requires Inv(j) && Enabled(j, move) && Exact(j.g, from, sink)
    ensures Exact(Next(j, move).g, from, sink)
  {
    match move {
      case ParseByte =>
        assert Linked(j, j.held.value.0);
        ByteExact(j.g, j.held.value.0, j.held.value.1, from, sink);
      case OtherByte(k, b) => ByteExact(j.g, k, b, from, sink);
      case Between(action) => DoExact(j.g, action, from, sink);
      case _ =>
    }
  }

  // Transforms and policies over a run, from the setup and the moves alone.

  /** The hook, transformer or toggle of a move. */
  function ActionOf(move: Move): seq<Step> {
    if move.Between? then [move.action] else []
  }

  function Actions(moves: seq<Move>): seq<Step> {
    if moves == [] then [] else ActionOf(moves[0]) + Actions(moves[1..])
  }

  /** After these steps the transforms of source `i` amount to `d` and those of the sink to `c`, and if the
      source is untrusted, policies are on. */
  ghost predicate CodesBy(done: seq<Step>, on: bool, i: nat, d: Mavlink -> Mavlink, sink: nat, c: Mavlink -> Mavlink) {
    && (forall mav :: Decoding(done, on, i, mav) == d(mav))
    && (forall mav :: Encoding(done, on, sink, mav) == c(mav))
    && (Untrusted(i) ==> PoliciesOn(done))
  }

  /** So it is all along the moves. */
  ghost predicate Steady(done: seq<Step>, on: bool, moves: seq<Move>, i: nat, d: Mavlink -> Mavlink,
                         sink: nat, c: Mavlink -> Mavlink)
    decreases |moves|
  {
    && CodesBy(done, on, i, d, sink, c)
    && (moves == [] || Steady(done + ActionOf(moves[0]), on, moves[1..], i, d, sink, c))
  }

  /** A move does what the steps so far say, and the configuration stays what they say. */
  lemma MoveFollows<P>(j: Joint<P>, done: seq<Step>, on: bool, move: Move)
    requires Inv(j) && Enabled(j, move) && ConfiguredBy(j.g, done, on)
    ensures var j' := Next(j, move);
            && ConfiguredBy(j'.g, done + ActionOf(move), on)
            && Grown(j.g.log, j'.g.log, done, on, 0, MAX_SOURCES)
  {
    assert done + [] == done;
    match move {
      case ParseByte =>
        assert Linked(j, j.held.value.0);
        ByteEvents(j.g, done, on, j.held.value.0, j.held.value.1);
      case OtherByte(k, b) => ByteEvents(j.g, done, on, k, b);
      case Between(action) => LastStep(j.g, done, on, action);
      case _ =>
    }
  }

  lemma {:induction false} RunCodes<P>(j: Joint<P>, done: seq<Step>, on: bool, moves: seq<Move>, i: nat,
                                       d: Mavlink -> Mavlink, sink: nat, c: Mavlink -> Mavlink)
    requires Inv(j) && ValidRun(j, moves) && ConfiguredBy(j.g, done, on) && Steady(done, on, moves, i, d, sink, c)
    requires DecodedBy(j.g.log, i, d) && EncodedBy(j.g.log, sink, c)
    ensures DecodedBy(After(j, moves).g.log, i, d) && EncodedBy(After(j, moves).g.log, sink, c)
    decreases |moves|
  {
    if moves != [] {
      var j' := Next(j, moves[0]);
      InvMove(j, moves[0]);
      MoveFollows(j, done, on, moves[0]);
      GrownCoded(j.g.log, j'.g.log, done, on, i, d, sink, c);
      RunCodes(j', done + ActionOf(moves[0]), on, moves[1..], i, d, sink, c);
    }
  }

  lemma GrownCoded(was: seq<Event>, log: seq<Event>, done: seq<Step>, on: bool, i: nat, d: Mavlink -> Mavlink,
                   sink: nat, c: Mavlink -> Mavlink)
    requires Grown(was, log, done, on, 0, MAX_SOURCES) && CodesBy(done, on, i, d, sink, c)
    requires DecodedBy(was, i, d) && EncodedBy(was, sink, c)
    ensures DecodedBy(log, i, d) && EncodedBy(log, sink, c)
  {
    forall k | 0 <= k < |log| && (log[k].Parsed? || log[k].Delivered?)
      ensures log[k].Parsed? && log[k].slot == i ==>
                log[k].pushed == d(log[k].mav) && (Untrusted(i) ==> log[k].guarded)
      ensures log[k].Delivered? && log[k].sink == sink ==> log[k].sent == c(log[k].mav)
    {
      assert k < |was| ==> log[k] == was[k];
    }
  }

  /** Of the sources in `from`, the sink has been sent the first messages of this stream, and all of it once
      nothing of source `i` is on its way: everything its recv calls returned, or its read_byte took from the
      UART, parsed, decoded by `d`, without the forbidden messages if the source is untrusted, and encoded by
      `c`. */
  ghost predicate Received<P>(t: Joint<P>, from: set<nat>, sink: nat, i: nat, d: Mavlink -> Mavlink,
                              c: Mavlink -> Mavlink)
    requires Shapely(t) && i < MAX_SOURCES
  {
    var stream := Encoded(c, Through(d, Untrusted(i), Parse(t.g.parser, Input(t.feeds[i]))));
    var got := SentTo(t.g.log, from, sink);
    got <= stream && (Drained(t, i) ==> got == stream)
  }

  lemma ReceivedFromInput<P>(t: Joint<P>, i: nat, sink: nat, d: Mavlink -> Mavlink, c: Mavlink -> Mavlink)
    requires Inv(t) && i < MAX_SOURCES && t.feeds[i] != Other && sink in Route(i)
    requires Exact(t.g, {i}, sink) && DecodedBy(t.g.log, i, d) && EncodedBy(t.g.log, sink, c)
    ensures Received(t, {i}, sink, i, d, c)
  {
    FramesOfInput(t, i);
    SentOfFrames(t.g.log, i, sink, d, c, Parse(t.g.parser, Input(t.feeds[i])));
  }

  lemma SentOfFrames(log: seq<Event>, i: nat, sink: nat, d: Mavlink -> Mavlink, c: Mavlink -> Mavlink,
                     all: seq<Mavlink>)
    requires ReceivedBy(log, {i}, sink) == AllMeantFor(log, {i}, sink) && sink in Route(i)
    requires DecodedBy(log, i, d) && EncodedBy(log, sink, c) && Frames(log, i) <= all
    ensures var stream := Encoded(c, Through(d, Untrusted(i), all));
            && SentTo(log, {i}, sink) <= stream
            && (Frames(log, i) == all ==> SentTo(log, {i}, sink) == stream)
  {
    var frames := Frames(log, i);
    MeantIsThrough(log, i, d, sink);
    ThroughPrefix(d, Untrusted(i), all, |frames|);
    assert all[..|frames|] == frames;
    var got, through := ReceivedBy(log, {i}, sink), Through(d, Untrusted(i), all);
    SentIsEncoded(log, {i}, sink, c);
    EncodedPrefix(c, through, |got|);
    assert through[..|got|] == got;
  }

  /** From a source to a sink, in every run of all threads together: what the route function of a hooked sink
      has been sent of a threaded source is the stream of that source, with the transforms that the setup and
      the moves add and switch on. */
  lemma SourceToSink<P>(j: Joint<P>, setup: seq<Step>, on: bool, moves: seq<Move>,
                        i: nat, d: Mavlink -> Mavlink, sink: nat, c: Mavlink -> Mavlink)
    requires Begun(j, setup, on) && ValidRun(j, moves)
    requires i < MAX_SOURCES && j.feeds[i] != Other
    requires sink < MAX_SINKS && sink in Route(i) && SinkHooked(setup, sink)
    requires Steady(setup, on, moves, i, d, sink, c)
    ensures Received(After(j, moves), {i}, sink, i, d, c)
  {
    InitialInv(j);
    InvRun(j, moves);
    assert SinkAs(j.g.sinks[sink], setup, sink);
    SinkReceivesExactly(j, moves, {i}, sink);
    RunCodes(j, setup, on, moves, i, d, sink, c);
    assert SameKind(After(j, moves).feeds[i], j.feeds[i]);
    ReceivedFromInput(After(j, moves), i, sink, d, c);
  }

  /** And nothing else: if no other source is routed to the sink or has sent a frame, the sink has been sent
      this stream by all sources together. */
  lemma OneSourceToSink<P>(j: Joint<P>, setup: seq<Step>, on: bool, moves: seq<Move>,
                           i: nat, d: Mavlink -> Mavlink, sink: nat, c: Mavlink -> Mavlink)
    requires Begun(j, setup, on) && ValidRun(j, moves)
    requires i < MAX_SOURCES && j.feeds[i] != Other
    requires sink < MAX_SINKS && sink in Route(i) && SinkHooked(setup, sink)
    requires Steady(setup, on, moves, i, d, sink, c)
    requires OthersSilent(After(j, moves).g.log, i, sink)
    ensures Received(After(j, moves), AllSources(), sink, i, d, c)
  {
    InitialInv(j);
    SourceToSink(j, setup, on, moves, i, d, sink, c);
    assert SinkAs(j.g.sinks[sink], setup, sink);
    SinkReceivesExactly(j, moves, AllSources() - {i}, sink);
    OnlyReceived(After(j, moves), i, sink);
  }

  lemma OnlyReceived<P>(t: Joint<P>, i: nat, sink: nat)
    requires Shapely(t) && i in AllSources() && Exact(t.g, AllSources() - {i}, sink)
    requires OthersSilent(t.g.log, i, sink)
    ensures SentTo(t.g.log, AllSources(), sink) == SentTo(t.g.log, {i}, sink)
  {
    NothingMeant(t.g.log, i, sink);
    OnlyFrom(t.g.log, i, sink);
  }

  /** A slot that neither the setup nor a move hooks has sent no frame. */
  lemma {:induction false} UnhookedIsSilent<P>(j: Joint<P>, done: seq<Step>, on: bool, moves: seq<Move>, k: nat)
    requires Inv(j) && ValidRun(j, moves) && ConfiguredBy(j.g, done, on) && k < MAX_SOURCES
    requires !SlotHooked(done + Actions(moves), k) && j.g.read[k] == []
    ensures Inv(After(j, moves)) && Frames(After(j, moves).g.log, k) == []
    decreases |moves|
  {
    if moves == [] {
    } else {
      var more := done + ActionOf(moves[0]);
      assert done + Actions(moves) == more + Actions(moves[1..]);
      if SlotHooked(done, k) {
        HookedStays(done, Actions(moves), k);
      }
      InvMove(j, moves[0]);
      MoveFollows(j, done, on, moves[0]);
      UnhookedReads(j, done, on, moves[0], k);
      UnhookedIsSilent(Next(j, moves[0]), more, on, moves[1..], k);
    }
  }

  lemma HookedStays(done: seq<Step>, more: seq<Step>, k: nat)
    requires SlotHooked(done, k)
    ensures SlotHooked(done + more, k)
  {
    var i :| 0 <= i < |done| && Connects(done[i], k);
    assert Connects((done + more)[i], k);
  }

  lemma UnhookedReads<P>(j: Joint<P>, done: seq<Step>, on: bool, move: Move, k: nat)
    requires Inv(j) && Enabled(j, move) && ConfiguredBy(j.g, done, on) && k < MAX_SOURCES
    requires !SlotHooked(done, k) && j.g.read[k] == []
    ensures Next(j, move).g.read[k] == []
  {
    assert SourceAs(j.g.sources[k], done, k);
    match move {
      case ParseByte =>
        assert Linked(j, j.held.value.0);
        ByteReads(j.g, j.held.value.0, j.held.value.1);
      case OtherByte(i, b) => ByteReads(j.g, i, b);
      case Between(action) => DoReads(j.g, action, k);
      case _ =>
    }
  }

  /** From the autopilot: no other source is routed to the LEGACY and the ENCLAVE sink, so all they have been
      sent is its stream. */
  lemma AutopilotToSink<P>(j: Joint<P>, setup: seq<Step>, on: bool, moves: seq<Move>,
                           d: Mavlink -> Mavlink, sink: nat, c: Mavlink -> Mavlink)
    requires Begun(j, setup, on) && ValidRun(j, moves)
    requires j.feeds[SOURCE_VMC] != Other
    requires (sink == SINK_LEGACY || sink == SINK_ENCLAVE) && SinkHooked(setup, sink)
    requires Steady(setup, on, moves, SOURCE_VMC, d, sink, c)
    ensures Received(After(j, moves), AllSources(), sink, SOURCE_VMC, d, c)
  {
    RoutesLeaveSilent(After(j, moves).g.log);
    OneSourceToSink(j, setup, on, moves, SOURCE_VMC, d, sink, c);
  }

  /** To the autopilot, from the legacy ground station alone. */
  lemma GroundStationToAutopilot<P>(j: Joint<P>, setup: seq<Step>, on: bool, moves: seq<Move>,
                                    d: Mavlink -> Mavlink, c: Mavlink -> Mavlink)
    requires Begun(j, setup, on) && ValidRun(j, moves)
    requires j.feeds[SOURCE_LEGACY] != Other && SinkHooked(setup, SINK_VMC)
    requires !SlotHooked(setup + Actions(moves), SOURCE_ENCLAVE)
    requires Steady(setup, on, moves, SOURCE_LEGACY, d, SINK_VMC, c)
    ensures Received(After(j, moves), AllSources(), SINK_VMC, SOURCE_LEGACY, d, c)
  {
    StationAlone(j, setup, on, moves);
    OneSourceToSink(j, setup, on, moves, SOURCE_LEGACY, d, SINK_VMC, c);
  }

  lemma StationAlone<P>(j: Joint<P>, setup: seq<Step>, on: bool, moves: seq<Move>)
    requires Begun(j, setup, on) && ValidRun(j, moves) && !SlotHooked(setup + Actions(moves), SOURCE_ENCLAVE)
    ensures OthersSilent(After(j, moves).g.log, SOURCE_LEGACY, SINK_VMC)
  {
    InitialInv(j);
    UnhookedIsSilent(j, setup, on, moves, SOURCE_ENCLAVE);
    RoutesLeaveSilent(After(j, moves).g.log);
  }

  lemma KindsStay<P>(j: Joint<P>, moves: seq<Move>)
    requires Initial(j) && ValidRun(j, moves)
    ensures forall k :: 0 <= k < MAX_SOURCES ==> SameKind(After(j, moves).feeds[k], j.feeds[k])
  {
    InitialInv(j);
    InvRun(j, moves);
  }
}
