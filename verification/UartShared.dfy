/** Any number of UARTs whose servers read into the one array `uart_input` of lib/source_uart.c. */
module UartShared {
  import opened Common
  import opened LossyQueue
  import Uart

  /** `input` is the array; an UART that has read and not yet copied finds its chunk there. */
  datatype Shared = Shared(input: seq<byte>, uarts: seq<Uart.State>)

  /** A step of UART `k`: of its server, of the pipeline thread in its functions, or of its sink. */
  datatype Move = Move(k: nat, step: Uart.Step)

  /** What an UART makes of the array at its copy. */
  function Refreshed(u: Uart.State, input: seq<byte>): Uart.State {
    if u.server.Got? && |u.server.chunk| <= |input|
    then u.(server := Uart.Got(input[..|u.server.chunk|], u.server.sent)) else u
  }

  ghost predicate Inv(s: Shared) {
    && |s.input| == Uart.READ_SIZE
    && (forall j :: 0 <= j < |s.uarts| ==> Uart.Inv(s.uarts[j]) && s.uarts[j] == Refreshed(s.uarts[j], s.input))
  }

  /** The array is zero at first, and every UART is as uart_state_init leaves it. */
  function Start(n: nat): (s: Shared)
    ensures Inv(s)
  {
    Shared(seq(Uart.READ_SIZE, _ => 0), seq(n, _ => Uart.Start()))
  }

  predicate Enabled(s: Shared, move: Move) {
    move.k < |s.uarts| && !move.step.OtherRead? && Uart.Enabled(s.uarts[move.k], move.step)
  }

  /** read() replaces the first bytes of the array. */
  function Filled(input: seq<byte>, chunk: seq<byte>): seq<byte>
    requires |chunk| <= |input|
  {
    chunk + input[|chunk|..]
  }

  ghost function Next(s: Shared, move: Move): (s': Shared)
    requires Inv(s) && Enabled(s, move)
    ensures |s'.uarts| == |s.uarts| && |s'.input| == |s.input|
  {
    var k, step := move.k, move.step;
    if step.DeviceRead? then
      var input := Filled(s.input, step.chunk);
      Shared(input, seq(|s.uarts|, j requires 0 <= j < |s.uarts| =>
               if j == k then Uart.Next(s.uarts[k], step) else Refreshed(s.uarts[j], input)))
    else
      s.(uarts := s.uarts[k := Uart.Next(s.uarts[k], step)])
  }

  lemma InvMove(s: Shared, move: Move)
    requires Inv(s) && Enabled(s, move)
    ensures Inv(Next(s, move))
  {
    var s' := Next(s, move);
    Uart.InvStep(s.uarts[move.k], move.step);
    forall j | 0 <= j < |s'.uarts| ensures Uart.Inv(s'.uarts[j]) && s'.uarts[j] == Refreshed(s'.uarts[j], s'.input) {
      if j == move.k && move.step.DeviceRead? {
        assert s'.input[..|move.step.chunk|] == move.step.chunk;
      }
    }
  }

  ghost predicate ValidRun(s: Shared, moves: seq<Move>)
    requires Inv(s)
    decreases |moves|
  {
    moves == [] || (Enabled(s, moves[0]) && (InvMove(s, moves[0]); ValidRun(Next(s, moves[0]), moves[1..])))
  }

  ghost function After(s: Shared, moves: seq<Move>): (s': Shared)
    requires Inv(s) && ValidRun(s, moves)
    ensures Inv(s') && |s'.uarts| == |s.uarts|
    decreases |moves|
  {
    if moves == [] then s else (InvMove(s, moves[0]); After(Next(s, moves[0]), moves[1..]))
  }

  // Each UART by itself.

  /** The stores of another UART's read, one byte at a time. */
  function Stores(chunk: seq<byte>): seq<Uart.Step> {
    if chunk == [] then [] else
    var n := |chunk| - 1;
    Stores(chunk[..n]) + [Uart.OtherRead(n, chunk[n])]
  }

  /** What UART `j` sees of a move: its own step, the stores of another's read, or nothing. */
  function Seen(move: Move, j: nat): seq<Uart.Step> {
    if move.k == j then [move.step]
    else if move.step.DeviceRead? then Stores(move.step.chunk)
    else []
  }

  function AllSeen(moves: seq<Move>, j: nat): seq<Uart.Step> {
    if moves == [] then [] else Seen(moves[0], j) + AllSeen(moves[1..], j)
  }

  /** Stored one at a time or all at once, the bytes another read puts in the array are the same. */
  lemma {:induction false} StoresRefresh(u: Uart.State, input: seq<byte>, chunk: seq<byte>)
    requires Uart.Inv(u) && |chunk| <= |input| == Uart.READ_SIZE && u == Refreshed(u, input)
    ensures Uart.ValidRun(u, Stores(chunk))
    ensures Uart.After(u, Stores(chunk)) == Refreshed(u, Filled(input, chunk))
    decreases |chunk|
  {
    if chunk == [] {
      assert Filled(input, chunk) == input;
    } else {
      var n := |chunk| - 1;
      var step := Uart.OtherRead(n, chunk[n]);
      StoresRefresh(u, input, chunk[..n]);
      var t := Uart.After(u, Stores(chunk[..n]));
      Uart.Then(t, step, []);
      assert [step] + [] == [step];
      Uart.Concat(u, Stores(chunk[..n]), [step]);
      assert Filled(input, chunk) == Filled(input, chunk[..n])[n := chunk[n]];
      OneMore(u, Filled(input, chunk[..n]), n, chunk[n]);
    }
  }

  lemma OneMore(u: Uart.State, input: seq<byte>, n: nat, b: byte)
    requires Uart.Inv(u) && n < |input| == Uart.READ_SIZE
    ensures var t, step := Refreshed(u, input), Uart.OtherRead(n, b);
            && t.tail < Uart.CAPACITY && |t.ring| <= Uart.CAPACITY && t.stream.rd <= |t.stream.written|
            && Uart.Next(t, step) == Refreshed(u, input[n := b])
  {
    if u.server.Got? && n < |u.server.chunk| {
      assert input[..|u.server.chunk|][n := b] == input[n := b][..|u.server.chunk|];
    } else if u.server.Got? {
      assert input[..|u.server.chunk|] == input[n := b][..|u.server.chunk|];
    }
  }

  /** One move is, for each UART, a run of module Uart. */
  lemma MoveSeen(s: Shared, move: Move, j: nat)
    requires Inv(s) && Enabled(s, move) && j < |s.uarts|
    ensures Uart.ValidRun(s.uarts[j], Seen(move, j))
    ensures Uart.After(s.uarts[j], Seen(move, j)) == Next(s, move).uarts[j]
  {
    if move.k == j {
      Uart.Then(s.uarts[j], move.step, []);
      assert [move.step] + [] == [move.step];
    } else if move.step.DeviceRead? {
      StoresRefresh(s.uarts[j], s.input, move.step.chunk);
    }
  }

  /** Refinement: in every run of all UARTs together each goes through a run of module Uart, so what is
      proved there of every run holds of each of them. */
  lemma {:induction false} RunSeen(s: Shared, moves: seq<Move>, j: nat)
    requires Inv(s) && ValidRun(s, moves) && j < |s.uarts|
    ensures Uart.ValidRun(s.uarts[j], AllSeen(moves, j))
    ensures Uart.After(s.uarts[j], AllSeen(moves, j)) == After(s, moves).uarts[j]
    decreases |moves|
  {
    if moves != [] {
      InvMove(s, moves[0]);
      MoveSeen(s, moves[0], j);
      RunSeen(Next(s, moves[0]), moves[1..], j);
      Uart.Concat(s.uarts[j], Seen(moves[0], j), AllSeen(moves[1..], j));
    }
  }

  // When the bytes are the device's.

  /** Every outgoing byte misses the unread ones of its UART, or is the byte there. */
  ghost predicate SinksHarmless(s: Shared, moves: seq<Move>)
    requires Inv(s) && ValidRun(s, moves)
    decreases |moves|
  {
    moves == [] ||
    (Uart.Harmless(s.uarts[moves[0].k], moves[0].step)
     && (InvMove(s, moves[0]); SinksHarmless(Next(s, moves[0]), moves[1..])))
  }

  ghost predicate AllIntact(s: Shared)
    requires Inv(s)
  {
    forall j :: 0 <= j < |s.uarts| ==> Uart.Intact(s.uarts[j])
  }

  /** In every run whose outgoing bytes are harmless, every UART hands over what its device sent. */
  ghost predicate ContentsKept(n: nat) {
    forall moves ::
      ValidRun(Start(n), moves) && SinksHarmless(Start(n), moves) ==> HandsOverSent(After(Start(n), moves))
  }

  ghost predicate HandsOverSent(s: Shared)
    requires Inv(s)
  {
    forall j :: 0 <= j < |s.uarts| ==> s.uarts[j].out == Delivered(s.uarts[j].stream)
  }

  lemma {:induction false} AloneIntact(s: Shared, moves: seq<Move>)
    requires Inv(s) && |s.uarts| <= 1 && AllIntact(s) && ValidRun(s, moves) && SinksHarmless(s, moves)
    ensures AllIntact(After(s, moves))
    decreases |moves|
  {
    if moves != [] {
      InvMove(s, moves[0]);
      Uart.IntactStep(s.uarts[0], moves[0].step);
      AloneIntact(Next(s, moves[0]), moves[1..]);
    }
  }

  lemma First(s: Shared, move: Move, rest: seq<Move>)
    requires Inv(s) && Enabled(s, move)
    ensures Inv(Next(s, move))
    ensures ValidRun(s, [move] + rest) <==> ValidRun(Next(s, move), rest)
    ensures ValidRun(s, [move] + rest) ==>
              && After(s, [move] + rest) == After(Next(s, move), rest)
              && (!move.step.SinkByte? ==> (SinksHarmless(s, [move] + rest) <==> SinksHarmless(Next(s, move), rest)))
  {
    InvMove(s, move);
    assert ([move] + rest)[1..] == rest;
  }

  /** The second UART reads between the read and the copy of the first. */
  function Overlapping(): seq<Move> {
    [Move(0, Uart.DeviceRead([7]))] + ([Move(1, Uart.DeviceRead([9]))] + CopyAndRead())
  }

  function CopyAndRead(): seq<Move> {
    [Move(0, Uart.Copy)] + ([Move(0, Uart.HasMore)] + ([Move(0, Uart.ReadByte)] + []))
  }

  lemma OverlappingCorrupts(n: nat)
    requires n >= 2
    ensures ValidRun(Start(n), Overlapping()) && SinksHarmless(Start(n), Overlapping())
    ensures var u := After(Start(n), Overlapping()).uarts[0];
            u.out == [9] && Delivered(u.stream) == [7]
  {
    var s0 := Start(n);
    First(s0, Move(0, Uart.DeviceRead([7])), [Move(1, Uart.DeviceRead([9]))] + CopyAndRead());
    var s1 := Next(s0, Move(0, Uart.DeviceRead([7])));
    First(s1, Move(1, Uart.DeviceRead([9])), CopyAndRead());
    var s2 := Next(s1, Move(1, Uart.DeviceRead([9])));
    assert s2.input[..1] == [9] && s2.uarts[0].server == Uart.Got([9], [7]);
    CopiesTheOther(s2);
  }

  lemma CopiesTheOther(s: Shared)
    requires Inv(s) && |s.uarts| > 0
    requires s.uarts[0] == Uart.Start().(server := Uart.Got([9], [7]))
    ensures ValidRun(s, CopyAndRead()) && SinksHarmless(s, CopyAndRead())
    ensures var u := After(s, CopyAndRead()).uarts[0];
            u.out == [9] && Delivered(u.stream) == [7]
  {
    First(s, Move(0, Uart.Copy), [Move(0, Uart.HasMore)] + ([Move(0, Uart.ReadByte)] + []));
    var t := Next(s, Move(0, Uart.Copy));
    assert [] + [9] == [9] && [] + [7] == [7];
    assert t.uarts[0].ring == [9] && t.uarts[0].stream == Store(Empty(), [7], 0);
    ReadsTheOther(t);
  }

  lemma ReadsTheOther(s: Shared)
    requires Inv(s) && |s.uarts| > 0
    requires var u := s.uarts[0];
             u.ring == [9] && u.stream == Store(Empty(), [7], 0) && u.consumer == Uart.Idle && u.out == []
    ensures var moves := [Move(0, Uart.HasMore)] + ([Move(0, Uart.ReadByte)] + []);
            && ValidRun(s, moves) && SinksHarmless(s, moves)
            && After(s, moves).uarts[0].out == [9] && Delivered(After(s, moves).uarts[0].stream) == [7]
  {
    First(s, Move(0, Uart.HasMore), [Move(0, Uart.ReadByte)] + []);
    var t := Next(s, Move(0, Uart.HasMore));
    First(t, Move(0, Uart.ReadByte), []);
    assert [] + [9] == [9];
    TakeOldest(t.uarts[0].stream);
    assert Next(t, Move(0, Uart.ReadByte)).uarts[0].out == [9];
  }

  /** The exact condition: whatever the servers' timing, the UARTs hand over what their devices sent if and
      only if at most one UART is hooked. */
  lemma ContentsKeptIff(n: nat)
    ensures ContentsKept(n) <==> n <= 1
  {
    if n <= 1 {
      forall moves | ValidRun(Start(n), moves) && SinksHarmless(Start(n), moves)
        ensures AllIntact(After(Start(n), moves))
      {
        AloneIntact(Start(n), moves);
      }
    } else {
      OverlappingCorrupts(n);
    }
  }

  /** With any number of UARTs the counts hold for each of them, as in Uart.EveryRun. */
  lemma EveryRunOfEach(n: nat, moves: seq<Move>, j: nat)
    requires ValidRun(Start(n), moves) && j < n
    ensures var u := After(Start(n), moves).uarts[j];
            && u.fillers == 0
            && |u.out| + Lost(u.stream) + |u.ring| == |u.stream.written|
            && 0 <= Lost(u.stream) <= |u.stream.written| - u.chunks
            && |u.ring| <= Uart.CAPACITY
            && (u.server.Got? ==> |u.ring| < Uart.CAPACITY)
  {
    RunSeen(Start(n), moves, j);
    Uart.EveryRun(AllSeen(moves, j));
  }
}
