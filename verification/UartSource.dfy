/** The UART connection object: one method per critical section or unlocked access, each proved to
    take exactly the step of the same name in module Uart. */
module UartSource {
  import opened Common
  import opened LossyQueue
  import RingBuffer
  import opened Uart
  import UartShared

  datatype Pc = AtRead | AtLock | AtWait | AtRelock | Gone

  lemma SlotIsRemainder(tail: nat, drop: nat)
    requires tail < CAPACITY && drop <= CAPACITY
    ensures RingBuffer.Slot(tail, drop, CAPACITY) == (tail + drop) % CAPACITY
  {
  }

  class UartConnection {
    const output_buffer: array<byte>
    const uart_input: array<byte>
    const input_buffer: RingBuffer.Ring
    var bytes_read: nat
    var server: Pc
    var has_more: bool
    ghost var sent: seq<byte>
    ghost var out: seq<byte>
    ghost var fillers: nat
    ghost var stream: Queue<byte>
    ghost var chunks: nat

    ghost predicate Shape()
      reads this, input_buffer
    {
      && output_buffer.Length == CAPACITY
      && uart_input.Length == READ_SIZE
      && uart_input != output_buffer
      && input_buffer.Valid()
      && input_buffer.buffer == output_buffer
      && input_buffer.max == CAPACITY
      && bytes_read <= READ_SIZE
    }

    ghost function ServerView(): ServerPc
      requires Shape()
      reads this, input_buffer, uart_input
    {
      match server
      case AtRead => Reading
      case AtLock => Got(uart_input[..bytes_read], sent)
      case AtWait => Waiting
      case AtRelock => Woken
      case Gone => Stopped
    }

    ghost function View(): State
      requires Shape()
      reads this, input_buffer, output_buffer, uart_input
    {
      State(input_buffer.Contents(), input_buffer.tail, ServerView(), if has_more then Primed else Idle,
            out, fillers, stream, chunks)
    }

    ghost predicate Valid()
      reads this, input_buffer, output_buffer, uart_input
    {
      Shape() && Inv(View())
    }

    /** A connection whose server reads into `input`, the array all UART servers share. */
    constructor (input: array<byte>)
      requires input.Length == READ_SIZE
      ensures Valid() && View() == Start() && uart_input == input
      ensures fresh(input_buffer) && fresh(output_buffer)
    {
      var storage := new byte[CAPACITY];
      output_buffer := storage;
      uart_input := input;
      input_buffer := new RingBuffer.Ring(storage, CAPACITY);
      bytes_read, server, has_more := 0, AtRead, false;
      sent, out, fillers, stream, chunks := [], [], 0, Empty(), 0;
    }

    /** read() returned `data`, outside the lock. */
    method ServerRead(data: seq<byte>)
      requires Valid() && Enabled(View(), DeviceRead(data))
      modifies this`bytes_read, this`server, this`sent, uart_input
      ensures Valid() && View() == Next(old(View()), DeviceRead(data))
      ensures uart_input[..] == data + old(uart_input[..])[|data|..]
    {
      ghost var rest := uart_input[..][|data|..];
      forall i | 0 <= i < |data| {
        uart_input[i] := data[i];
      }
      bytes_read, server, sent := |data|, AtLock, data;
      assert uart_input[..bytes_read] == data;
      assert uart_input[..] == data + rest;
    }

    /** The same read beside another connection: the bytes that wait for its copy are replaced too. */
    method ServerReadBeside(data: seq<byte>, other: UartConnection)
      requires Valid() && Enabled(View(), DeviceRead(data))
      requires other.Valid() && other != this && other.uart_input == uart_input
      requires other.output_buffer != output_buffer && other.input_buffer != input_buffer
      modifies this`bytes_read, this`server, this`sent, uart_input
      ensures Valid() && View() == Next(old(View()), DeviceRead(data))
      ensures other.Valid() && other.View() == UartShared.Refreshed(old(other.View()), uart_input[..])
    {
      ServerRead(data);
      assert uart_input[..][..other.bytes_read] == uart_input[..other.bytes_read];
    }

    /** The server thread returns: read() failed or the loop saw `terminate`. */
    method ServerLeave()
      requires Valid() && Enabled(View(), Leave)
      modifies this`server
      ensures Valid() && View() == Next(old(View()), Leave)
    {
      server := Gone;
    }

    method CopyIn(ghost before: State)
      requires Valid() && server == AtLock && before == View()
      modifies input_buffer, output_buffer
      ensures Shape()
      ensures input_buffer.Contents() == KeepLast(CAPACITY, before.ring + before.server.chunk)
      ensures input_buffer.tail == RingBuffer.Slot(before.tail, Overflow(CAPACITY, |before.ring|, bytes_read), CAPACITY)
      ensures output_buffer[..] == Storage(old(output_buffer[..]), before, Copy)
    {
      assert input_buffer.head == HeadOf(before);
      assert output_buffer[..] == output_buffer[..CAPACITY];
      input_buffer.CopyFrom(uart_input, bytes_read);
      assert output_buffer[..] == output_buffer[..CAPACITY];
    }

    /** lock; ring_buffer_copy_from; the loop test; and cnd_wait or unlock. */
    method ServerCopy()
      requires Valid() && Enabled(View(), Copy)
      modifies this`stream, this`chunks, this`server, input_buffer, output_buffer
      ensures Valid() && View() == Next(old(View()), Copy)
      ensures output_buffer[..] == Storage(old(output_buffer[..]), old(View()), Copy)
    {
      ghost var before := View();
      InvStep(before, Copy);
      SlotIsRemainder(before.tail, Overflow(CAPACITY, |before.ring|, bytes_read));
      CopyIn(before);
      WaitOrUnlock(before);
    }

    /** The test after the copy. */
    method WaitOrUnlock(ghost before: State)
      requires Shape() && server == AtLock && Inv(before) && Enabled(before, Copy)
      requires View() == before.(ring := Next(before, Copy).ring, tail := Next(before, Copy).tail)
      modifies this`stream, this`chunks, this`server
      ensures Shape() && View() == Next(before, Copy)
    {
      var full := input_buffer.IsFull();
      stream := Store(stream, sent, Overflow(CAPACITY, |before.ring|, bytes_read));
      chunks, server := chunks + 1, if full then AtWait else AtRead;
    }

    /** cnd_wait returns without a signal. */
    method SpuriousWake()
      requires Valid() && Enabled(View(), Wake)
      modifies this`server
      ensures Valid() && View() == Next(old(View()), Wake)
    {
      server := AtRelock;
    }

    method ServerRetest()
      requires Valid() && Enabled(View(), Retest)
      modifies this`server
      ensures Valid() && View() == Next(old(View()), Retest)
    {
      var full := input_buffer.IsFull();
      server := if full then AtWait else AtRead;
    }

    method UartHasMore() returns (more: bool)
      requires Valid() && Enabled(View(), HasMore)
      modifies this`has_more
      ensures Valid() && View() == Next(old(View()), HasMore)
      ensures more <==> old(input_buffer.Contents()) != []
      ensures more <==> View().consumer == Primed
    {
      var empty := input_buffer.IsEmpty();
      more := !empty;
      has_more := more;
    }

    method PopOldest(ghost before: State) returns (b: byte)
      requires Valid() && before == View() && before.ring != []
      modifies input_buffer
      ensures Shape()
      ensures b == before.ring[0] && input_buffer.Contents() == before.ring[1..]
      ensures input_buffer.tail == (before.tail + 1) % CAPACITY
    {
      SlotIsRemainder(input_buffer.tail, 1);
      b := input_buffer.Pop();
    }

    method UartReadByte() returns (b: byte)
      requires Valid() && Enabled(View(), ReadByte)
      modifies this`out, this`stream, this`has_more, this`server, input_buffer
      ensures Valid() && View() == Next(old(View()), ReadByte)
      ensures out == old(out) + [b]
    {
      ghost var before := View();
      InvStep(before, ReadByte);
      b := PopOldest(before);
      HandOver(before, b);
    }

    /** The popped byte is returned, and a waiting server signalled. */
    method HandOver(ghost before: State, b: byte)
      requires Shape() && Inv(before) && Enabled(before, ReadByte) && b == before.ring[0]
      requires View() == before.(ring := before.ring[1..], tail := (before.tail + 1) % CAPACITY)
      modifies this`out, this`stream, this`has_more, this`server
      ensures Shape() && View() == Next(before, ReadByte)
      ensures out == old(out) + [b]
    {
      out, stream, has_more := out + [b], Take(stream), false;
      server := if server == AtWait then AtRelock else server;
    }

    /** mavlink_msg_to_send_buffer stores one byte of the outgoing message, without the lock. */
    method SinkStore(slot: nat, b: byte)
      requires Valid() && Enabled(View(), SinkByte(slot, b))
      modifies output_buffer
      ensures Valid() && View() == Next(old(View()), SinkByte(slot, b))
      ensures output_buffer[..] == Storage(old(output_buffer[..]), old(View()), SinkByte(slot, b))
    {
      ghost var before := View();
      InvStep(before, SinkByte(slot, b));
      output_buffer[slot] := b;
      ghost var after := Next(before, SinkByte(slot, b));
      forall i | 0 <= i < |before.ring| ensures View().ring[i] == after.ring[i] {
      }
      assert View().ring == after.ring;
    }
  }
}
