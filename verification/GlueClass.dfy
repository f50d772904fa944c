/** The buffers of the network glue as they are kept: a ring that tells full from empty by a flag, and
    a send buffer whose remainder is moved to the front. Every method is proved to take the state to
    the one that Glue.dfy says, and to answer as it says. */
module GlueClass {
  import opened LibC
  import opened Wrappers
  import opened Glue

  /** The bytes in a ring, oldest first. */
  function Ring(buffer: seq<Byte>, head: nat, tail: nat, full: bool): seq<Byte>
    requires head < |buffer| && tail < |buffer|
  {
    if tail < head then buffer[tail..head]
    else if head == tail && !full then []
    else buffer[tail..] + buffer[..head]
  }

  function Around(k: nat, size: nat): nat {
    if k < size then k else k - size
  }

  lemma RingAt(buffer: seq<Byte>, head: nat, tail: nat, full: bool)
    requires head < |buffer| && tail < |buffer|
    ensures var ring := Ring(buffer, head, tail, full);
            |ring| == Used(|buffer|, head, tail, full) <= |buffer| &&
            forall k :: 0 <= k < |ring| ==> ring[k] == buffer[Around(tail + k, |buffer|)]
  {
  }

  function Used(size: nat, head: nat, tail: nat, full: bool): nat
    requires head < size && tail < size
  {
    if tail < head then head - tail
    else if head == tail && !full then 0
    else size - tail + head
  }

  /** Bytes written at the head in at most two pieces, the second one at the start of the buffer. */
  function Wrapped(buffer: seq<Byte>, head: nat, bytes: seq<Byte>): (r: seq<Byte>)
    requires head <= |buffer| && |bytes| <= |buffer|
    ensures |r| == |buffer|
  {
    var first := Least(|bytes|, |buffer| - head);
    Placed(Placed(buffer, head, bytes[..first]), 0, bytes[first..])
  }

  lemma WrappedAt(buffer: seq<Byte>, head: nat, bytes: seq<Byte>, k: nat)
    requires head < |buffer| && |bytes| <= |buffer| && k < |buffer|
    ensures var at := if head <= k then k - head else k + |buffer| - head;
            Wrapped(buffer, head, bytes)[k] == if at < |bytes| then bytes[at] else buffer[k]
  {
  }

  /** A ring with room for the bytes holds them at its end afterwards, wherever the head was and
      whether or not they wrapped around, and the flag is right. */
  lemma RingWrites(buffer: seq<Byte>, head: nat, tail: nat, full: bool, bytes: seq<Byte>)
    requires head < |buffer| && tail < |buffer| && (full ==> head == tail)
    requires 0 < |bytes| <= |buffer| - |Ring(buffer, head, tail, full)|
    ensures (head + |bytes|) % |buffer| < |buffer|
    ensures var next := (head + |bytes|) % |buffer|;
            Ring(Wrapped(buffer, head, bytes), next, tail, next == tail) == Ring(buffer, head, tail, full) + bytes
  {
    var size, was := |buffer|, Ring(buffer, head, tail, full);
    RingAt(buffer, head, tail, full);
    var next := Around(head + |bytes|, size);
    AroundIsModulo(head + |bytes|, size);
    var after := Wrapped(buffer, head, bytes);
    var now := Ring(after, next, tail, next == tail);
    RingAt(after, next, tail, next == tail);
    hide Ring, Wrapped;
    assert |now| == |was| + |bytes|;
    forall k | 0 <= k < |now| ensures now[k] == (was + bytes)[k] {
      WrappedAt(buffer, head, bytes, Around(tail + k, size));
    }
  }

  lemma AroundIsModulo(k: nat, size: nat)
    requires 0 < size && k < 2 * size
    ensures k % size == Around(k, size)
  {
    if k >= size {
      assert k == size * 1 + (k - size);
    }
  }

  /** Taking the oldest byte leaves the others, also across the end of the buffer. */
  lemma RingReads(buffer: seq<Byte>, head: nat, tail: nat, full: bool)
    requires head < |buffer| && tail < |buffer| && (full ==> head == tail)
    requires head != tail || full
    ensures var next := if tail + 1 >= |buffer| then 0 else tail + 1;
            Ring(buffer, head, tail, full) == [buffer[tail]] + Ring(buffer, head, next, false)
  {
    var next := if tail + 1 >= |buffer| then 0 else tail + 1;
    RingAt(buffer, head, tail, full);
    RingAt(buffer, head, next, false);
  }

  lemma RingEmpty(buffer: seq<Byte>, head: nat, tail: nat, full: bool)
    requires head < |buffer| && tail < |buffer|
    ensures Ring(buffer, head, tail, full) == [] <==> head == tail && !full
  {
    RingAt(buffer, head, tail, full);
  }

  class Buffers {
    const rxbuf: array<Byte>
    var head: nat
    var tail: nat
    var full: bool
    const pending: array<Byte>
    var pendingLength: nat
    var established: bool
    var closed: bool
    var timedOut: bool
    var lastError: int
    var pollActive: bool

    ghost predicate Valid()
      reads this
    {
      && rxbuf.Length == RX_CAPACITY && pending.Length == TX_CAPACITY && rxbuf != pending
      && head < RX_CAPACITY && tail < RX_CAPACITY && (full ==> head == tail)
      && pendingLength <= TX_CAPACITY
    }

    ghost function Contents(): State
      reads this, rxbuf, pending
      requires Valid()
    {
      State(Ring(rxbuf[..], head, tail, full), pending[..pendingLength],
            established, closed, timedOut, lastError, pollActive)
    }

    constructor ()
      ensures Valid() && fresh(rxbuf) && fresh(pending)
      ensures Contents() == Initial()
    {
      rxbuf := new Byte[RX_CAPACITY](_ => 0);
      pending := new Byte[TX_CAPACITY](_ => 0);
      head, tail, full, pendingLength := 0, 0, false, 0;
      established, closed, timedOut, lastError, pollActive := false, false, false, 0, false;
    }

    method Reset()
      requires Valid()
      modifies this
      ensures Valid() && Contents() == Next(old(Contents()), Init)
    {
      head, tail, full, pendingLength := 0, 0, false, 0;
      established, closed, timedOut, lastError, pollActive := false, false, false, 0, false;
    }

    /** Bytes that can still be written. */
    method Free() returns (bytes: nat)
      requires Valid()
      ensures bytes + |Contents().rx| == RX_CAPACITY
    {
      bytes := if full then 0 else if tail > head then tail - head else rxbuf.Length - head + tail;
    }

    method CopyIn(data: array<Byte>)
      requires Valid() && data != rxbuf && data.Length <= RX_CAPACITY
      modifies rxbuf
      ensures rxbuf[..] == Wrapped(old(rxbuf[..]), head, data[..])
    {
      var n := data.Length;
      var first := n;
      if first > rxbuf.Length - head {
        first := rxbuf.Length - head;
      }
      assert data[0..first] == data[..][..first] && data[first..n] == data[..][first..];
      MemCpy(rxbuf, head, data, 0, first);
      if n > first {
        MemCpy(rxbuf, 0, data, first, n - first);
      }
    }

    method Write(data: array<Byte>)
      requires Valid() && data != rxbuf && data != pending
      requires data.Length + |Contents().rx| <= RX_CAPACITY
      modifies this`head, this`full, rxbuf
      ensures Valid()
      ensures Contents() == old(Contents()).(rx := old(Contents()).rx + data[..])
    {
      hide Ring, Wrapped;
      var n := data.Length;
      if n > 0 {
        RingWrites(rxbuf[..], head, tail, full, data[..]);
        CopyIn(data);
        head := (head + n) % rxbuf.Length;
        full := head == tail;
      } else {
        assert data[..] == [];
      }
    }

    /** A poll hands at most `mss` bytes to the stack and moves the rest to the front. */
    method Drain(mss: nat) returns (sent: seq<Byte>)
      requires Valid()
      modifies this, pending
      ensures Valid()
      ensures var n := Least(|old(Contents()).tx|, mss);
              sent == old(Contents()).tx[..n] && Contents() == old(Contents()).(tx := old(Contents()).tx[n..])
    {
      sent := [];
      if pendingLength > 0 {
        ghost var was := pending[..pendingLength];
        var n := pendingLength;
        if n > mss {
          n := mss;
        }
        sent := pending[..n];
        assert sent == was[..n];
        if n < pendingLength {
          assert pending[n..n + (pendingLength - n)] == was[n..];
          MemMove(pending, 0, n, pendingLength - n);
          assert pending[..pendingLength - n] == was[n..];
        }
        pendingLength := pendingLength - n;
        assert pending[..pendingLength] == was[n..];
      }
    }

    method Observe(connected: bool, aborted: bool, ended: bool, expired: bool)
      requires Valid()
      modifies this`established, this`closed, this`timedOut
      ensures Valid()
      ensures forall e: Callback | e.connected == connected && e.aborted == aborted
                && e.closed == ended && e.timedOut == expired :: Contents() == Notice(old(Contents()), e)
    {
      if connected {
        established := true;
      }
      if aborted || ended || expired {
        closed := true;
        if expired {
          timedOut := true;
        }
      }
    }

    /** A segment goes to the ring if there is room for all of it. */
    method Accept(data: array?<Byte>) returns (abort: bool)
      requires Valid() && data != rxbuf && data != pending
      modifies this`head, this`full, this`lastError, this`closed, rxbuf
      ensures Valid()
      ensures forall e: Callback | e.segment == (if data == null then None else Some(data[..])) ::
        Contents() == Arrive(old(Contents()), e) && abort == Refused(old(Contents()), e)
    {
      hide Ring;
      abort := false;
      if data != null {
        var free := Free();
        if data.Length > free {
          lastError, closed, abort := EOVERFLOW, true, true;
        } else {
          Write(data);
        }
      }
    }

    /** The callback of the stack. `data` is the segment, when there is one. */
    method AppCall(connected: bool, aborted: bool, ended: bool, expired: bool,
                   data: array?<Byte>, poll: bool, mss: nat)
        returns (sent: seq<Byte>, abort: bool)
      requires Valid() && data != rxbuf && data != pending
      modifies this, rxbuf, pending
      ensures Valid()
      ensures var e := Callback(connected, aborted, ended, expired,
                                if data == null then None else Some(old(data[..])), poll, mss);
              Contents() == Next(old(Contents()), App(e)) && Reply(0, sent, abort) == Answer(old(Contents()), App(e))
    {
      hide Ring, Valid, Contents;
      ghost var e := Callback(connected, aborted, ended, expired,
                              if data == null then None else Some(data[..]), poll, mss);
      ghost var s := Contents();
      Observe(connected, aborted, ended, expired);
      assert Contents() == Notice(s, e);
      abort := Accept(data);
      assert Contents() == Arrive(Notice(s, e), e);
      sent := [];
      if poll {
        sent := Drain(mss);
      }
      assert s.tx[0..] == s.tx;
    }

    method Connect(ip: array?<Byte>, port: int, slotFree: bool) returns (code: int)
      requires Valid()
      modifies this
      ensures Valid()
      ensures Contents() == Next(old(Contents()), Op.Connect(ip != null, port, slotFree))
      ensures Reply(code, [], false) == Answer(old(Contents()), Op.Connect(ip != null, port, slotFree))
    {
      if ip == null || port <= 0 || port > 65535 || pollActive {
        return EINVAL;
      }
      established, closed, timedOut, lastError := false, false, false, 0;
      pendingLength := 0;
      head, tail, full := 0, 0, false;
      if !slotFree {
        return -1;
      }
      return 0;
    }

    method Send(buf: array?<Byte>, length: int) returns (code: int)
      requires Valid() && buf != pending
      requires buf != null ==> length <= buf.Length
      modifies this, pending
      ensures Valid()
      ensures var o := Op.Send(if buf == null then None else Some(old(buf[..])), length);
              Contents() == Next(old(Contents()), o) && Reply(code, [], false) == Answer(old(Contents()), o)
    {
      ghost var was := pending[..pendingLength];
      assert was + [] == was;
      if length < 0 || (length > 0 && buf == null) {
        return EINVAL;
      }
      if length > pending.Length {
        return EOVERFLOW;
      }
      if pendingLength > pending.Length - length {
        return EBUSY;
      }
      if buf != null {
        assert buf[0..length] == buf[..][..length];
        MemCpy(pending, pendingLength, buf, 0, length);
        pendingLength := pendingLength + length;
        assert pending[..pendingLength] == was + buf[..][..length];
      }
      return length;
    }

    method Recv(buf: array?<Byte>, capacity: int) returns (code: int)
      requires Valid() && buf != rxbuf && buf != pending
      requires buf != null ==> capacity <= buf.Length
      modifies this`tail, this`full, buf
      ensures Valid()
      ensures var o := Op.Recv(buf != null, capacity);
              Contents() == Next(old(Contents()), o) && code == Answer(old(Contents()), o).code
      ensures buf != null ==>
        buf[..] == Placed(old(buf[..]), 0, Answer(old(Contents()), Op.Recv(true, capacity)).bytes)
    {
      hide Ring;
      ghost var was, ring, queue := Contents(), rxbuf[..], pending[..];
      if capacity < 0 || (capacity > 0 && buf == null) {
        return EINVAL;
      }
      var n := 0;
      while n < capacity && !(head == tail && !full)
        invariant Valid() && 0 <= n <= capacity && n <= |was.rx|
        invariant rxbuf[..] == ring && pending[..] == queue
        invariant Ring(ring, head, tail, full) == was.rx[n..]
        invariant buf != null ==> forall k :: 0 <= k < buf.Length ==>
          buf[k] == if k < n then was.rx[k] else old(buf[k])
      {
        RingReads(ring, head, tail, full);
        assert was.rx[n] == was.rx[n..][0] == ring[tail];
        assert was.rx[n..][1..] == was.rx[n + 1..];
        buf[n] := rxbuf[tail];
        n, tail := n + 1, tail + 1;
        if tail >= rxbuf.Length {
          tail := 0;
        }
        full := false;
      }
      RingEmpty(ring, head, tail, full);
      assert Contents().rx == was.rx[n..] && Contents().tx == queue[..pendingLength] == was.tx;
      return n;
    }

    /** Entering the poll loop; while it is active a second entry is refused. */
    method Enter() returns (code: int)
      requires Valid()
      modifies this
      ensures Valid()
      ensures Contents() == Next(old(Contents()), EnterPoll)
      ensures Reply(code, [], false) == Answer(old(Contents()), EnterPoll)
    {
      if pollActive {
        lastError := EBUSY;
        return EBUSY;
      }
      pollActive := true;
      return 0;
    }

    method Leave(error: Option<int>)
      requires Valid()
      modifies this
      ensures Valid() && Contents() == Next(old(Contents()), LeavePoll(error))
    {
      if error.Some? {
        lastError := error.value;
      }
      pollActive := false;
    }
  }
}
