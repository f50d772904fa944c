/** The glue between the network stack and its callers, seen from outside: two byte queues and a few
    flags, driven by an arbitrary interleaving of callbacks and calls. GlueClass.dfy proves that the
    ring buffer and the shifting send buffer behave like this; here are the theorems about runs. */
module Glue {
  import opened LibC
  import opened Wrappers

  const RX_CAPACITY: nat := 16384
  const TX_CAPACITY: nat := 2048
  const EINVAL := -1
  const EBUSY := -2
  const EOVERFLOW := -3

  /** What callers can tell: the bytes waiting to be read, the bytes waiting to be sent, the flags. */
  datatype State = State(
    rx: seq<Byte>, tx: seq<Byte>,
    established: bool, closed: bool, timedOut: bool,
    lastError: int, polling: bool)

  /** What the stack reports in one callback. `mss` is the most it can send at once. */
  datatype Callback = Callback(
    connected: bool, aborted: bool, closed: bool, timedOut: bool,
    segment: Option<seq<Byte>>, poll: bool, mss: nat)

  datatype Op =
    | Init
    | Connect(hasAddress: bool, port: int, slotFree: bool)
    | Send(data: Option<seq<Byte>>, length: int)
    | Recv(hasBuffer: bool, capacity: int)
    | App(event: Callback)
    | EnterPoll
    | LeavePoll(error: Option<int>)

  /** What one step gives back: a return code, the bytes handed over (to the reader or to the stack),
      and whether the stack was told to abort the connection. */
  datatype Reply = Reply(code: int, bytes: seq<Byte>, abort: bool)

  function Initial(): State {
    State([], [], false, false, false, 0, false)
  }

  function Least(a: int, b: int): int {
    if a <= b then a else b
  }

  // ---------------------------------------------------------------------------
  // One step
  // ---------------------------------------------------------------------------

  function Notice(s: State, e: Callback): State {
    s.(established := s.established || e.connected,
       closed := s.closed || e.aborted || e.closed || e.timedOut,
       timedOut := s.timedOut || e.timedOut)
  }

  predicate Refused(s: State, e: Callback) {
    e.segment.Some? && |s.rx| + |e.segment.value| > RX_CAPACITY
  }

  function Arrive(s: State, e: Callback): State {
    if e.segment.None? then s
    else if Refused(s, e) then s.(lastError := EOVERFLOW, closed := true)
    else s.(rx := s.rx + e.segment.value)
  }

  /** How many bytes a callback takes from the send queue. */
  function Drained(s: State, e: Callback): nat {
    if e.poll then Least(|s.tx|, e.mss) else 0
  }

  function AfterApp(s: State, e: Callback): State {
    Arrive(Notice(s, e), e).(tx := s.tx[Drained(s, e)..])
  }

  function AppReply(s: State, e: Callback): Reply {
    Reply(0, s.tx[..Drained(s, e)], Refused(s, e))
  }

  function ConnectCode(s: State, hasAddress: bool, port: int, slotFree: bool): int {
    if !hasAddress || port <= 0 || port > 65535 || s.polling then EINVAL
    else if slotFree then 0
    else -1
  }

  /** The two failures of connecting have the same code; only one of them leaves the state alone. */
  predicate Restarts(s: State, o: Op) {
    o.Init? || (o.Connect? && o.hasAddress && 0 < o.port <= 65535 && !s.polling)
  }

  function SendCode(s: State, data: Option<seq<Byte>>, length: int): int
  {
    if length < 0 || (length > 0 && data.None?) then EINVAL
    else if length > TX_CAPACITY then EOVERFLOW
    else if |s.tx| + length > TX_CAPACITY then EBUSY
    else length
  }

  /** A caller that names a buffer has at least as many bytes in it as it says. */
  predicate Honest(o: Op) {
    o.Send? && o.data.Some? ==> o.length <= |o.data.value|
  }

  function Queued(s: State, o: Op): seq<Byte>
    requires Honest(o)
  {
    if o.Send? && SendCode(s, o.data, o.length) > 0 then o.data.value[..o.length] else []
  }

  function RecvCode(s: State, hasBuffer: bool, capacity: int): int {
    if capacity < 0 || (capacity > 0 && !hasBuffer) then EINVAL else Least(|s.rx|, capacity)
  }

  function Taken(s: State, o: Op): nat {
    if o.Recv? && RecvCode(s, o.hasBuffer, o.capacity) > 0 then RecvCode(s, o.hasBuffer, o.capacity) else 0
  }

  function Next(s: State, o: Op): State
    requires Honest(o)
  {
    match o
    case Init => Initial()
    case Connect(_, _, _) => if Restarts(s, o) then Initial() else s
    case Send(_, _) => s.(tx := s.tx + Queued(s, o))
    case Recv(_, _) => s.(rx := s.rx[Taken(s, o)..])
    case App(e) => AfterApp(s, e)
    case EnterPoll => if s.polling then s.(lastError := EBUSY) else s.(polling := true)
    case LeavePoll(error) => s.(polling := false, lastError := if error.Some? then error.value else s.lastError)
  }

  function Answer(s: State, o: Op): Reply
    requires Honest(o)
  {
    match o
    case Init => Reply(0, [], false)
    case Connect(hasAddress, port, slotFree) => Reply(ConnectCode(s, hasAddress, port, slotFree), [], false)
    case Send(data, length) => Reply(SendCode(s, data, length), [], false)
    case Recv(hasBuffer, capacity) => Reply(RecvCode(s, hasBuffer, capacity), s.rx[..Taken(s, o)], false)
    case App(e) => AppReply(s, e)
    case EnterPoll => Reply(if s.polling then EBUSY else 0, [], false)
    case LeavePoll(_) => Reply(0, [], false)
  }

  // ---------------------------------------------------------------------------
  // Runs, as a caller and the stack would record them
  // ---------------------------------------------------------------------------

  datatype Event = Event(op: Op, reply: Reply)

  ghost predicate AllHonest(ops: seq<Op>) {
    forall o :: o in ops ==> Honest(o)
  }

  function After(s: State, ops: seq<Op>): State
    requires AllHonest(ops)
    decreases ops
  {
    if ops == [] then s else After(Next(s, ops[0]), ops[1..])
  }

  function Trace(s: State, ops: seq<Op>): seq<Event>
    requires AllHonest(ops)
    decreases ops
  {
    if ops == [] then [] else [Event(ops[0], Answer(s, ops[0]))] + Trace(Next(s, ops[0]), ops[1..])
  }

  /** The bytes of a segment that came in and was not answered with an abort. */
  function ArrivedIn(e: Event): seq<Byte> {
    if e.op.App? && e.op.event.segment.Some? && !e.reply.abort then e.op.event.segment.value else []
  }

  /** The bytes of a send that was answered with its length. */
  function AcceptedIn(e: Event): seq<Byte> {
    if e.op.Send? && e.op.data.Some? && 0 < e.op.length == e.reply.code && Honest(e.op)
    then e.op.data.value[..e.op.length]
    else []
  }

  function Arrived(trace: seq<Event>): seq<Byte> {
    if trace == [] then [] else ArrivedIn(trace[0]) + Arrived(trace[1..])
  }

  function Accepted(trace: seq<Event>): seq<Byte> {
    if trace == [] then [] else AcceptedIn(trace[0]) + Accepted(trace[1..])
  }

  /** The bytes that readers got. */
  function Delivered(trace: seq<Event>): seq<Byte> {
    if trace == [] then [] else (if trace[0].op.Recv? then trace[0].reply.bytes else []) + Delivered(trace[1..])
  }

  /** The bytes that were handed to the stack. */
  function Transmitted(trace: seq<Event>): seq<Byte> {
    if trace == [] then [] else (if trace[0].op.App? then trace[0].reply.bytes else []) + Transmitted(trace[1..])
  }

  /** No operation starts a new connection. */
  ghost predicate OneConnection(s: State, ops: seq<Op>)
    requires AllHonest(ops)
    decreases ops
  {
    ops == [] || (!Restarts(s, ops[0]) && OneConnection(Next(s, ops[0]), ops[1..]))
  }

  predicate Bounded(s: State) {
    |s.rx| <= RX_CAPACITY && |s.tx| <= TX_CAPACITY
  }

  /** No run overfills a buffer. */
  lemma {:induction false} StaysBounded(s: State, ops: seq<Op>)
    requires Bounded(s) && AllHonest(ops)
    ensures Bounded(After(s, ops))
    decreases ops
  {
    if ops != [] {
      StepBounded(s, ops[0]);
      hide Next, Bounded;
      StaysBounded(Next(s, ops[0]), ops[1..]);
    }
  }

  lemma StepBounded(s: State, o: Op)
    requires Bounded(s) && Honest(o)
    ensures Bounded(Next(s, o))
  {
  }

  // ---------------------------------------------------------------------------
  // Both queues conserve their byte streams
  // ---------------------------------------------------------------------------

  /** One step that does not restart moves bytes from the front of a queue to its reader and from
      its writer to the back. */
  lemma OneStep(s: State, o: Op)
    requires Honest(o) && !Restarts(s, o)
    ensures var e := Event(o, Answer(s, o));
            s.rx + ArrivedIn(e) == (if o.Recv? then e.reply.bytes else []) + Next(s, o).rx
    ensures var e := Event(o, Answer(s, o));
            s.tx + AcceptedIn(e) == (if o.App? then e.reply.bytes else []) + Next(s, o).tx
  {
  }

  /** From any state on, within one connection: what was waiting followed by what arrived is what was
      delivered followed by what is still waiting. */
  lemma {:induction false} ReceiveFrom(s: State, ops: seq<Op>)
    requires AllHonest(ops) && OneConnection(s, ops)
    ensures s.rx + Arrived(Trace(s, ops)) == Delivered(Trace(s, ops)) + After(s, ops).rx
    decreases ops
  {
    hide Next, Answer, ArrivedIn, Restarts;
    if ops != [] {
      var trace, next, rest := Trace(s, ops), Next(s, ops[0]), ops[1..];
      var given := if ops[0].Recv? then trace[0].reply.bytes else [];
      OneStep(s, ops[0]);
      ReceiveFrom(next, rest);
      assert trace[1..] == Trace(next, rest);
      assert s.rx + (ArrivedIn(trace[0]) + Arrived(trace[1..])) == (s.rx + ArrivedIn(trace[0])) + Arrived(trace[1..]);
      assert (given + next.rx) + Arrived(trace[1..]) == given + (next.rx + Arrived(trace[1..]));
      assert given + (Delivered(trace[1..]) + After(next, rest).rx) == Delivered(trace) + After(s, ops).rx;
    }
  }

  lemma {:induction false} SendFrom(s: State, ops: seq<Op>)
    requires AllHonest(ops) && OneConnection(s, ops)
    ensures s.tx + Accepted(Trace(s, ops)) == Transmitted(Trace(s, ops)) + After(s, ops).tx
    decreases ops
  {
    hide Next, Answer, AcceptedIn, Restarts;
    if ops != [] {
      var trace, next, rest := Trace(s, ops), Next(s, ops[0]), ops[1..];
      var given := if ops[0].App? then trace[0].reply.bytes else [];
      OneStep(s, ops[0]);
      SendFrom(next, rest);
      assert trace[1..] == Trace(next, rest);
      assert s.tx + (AcceptedIn(trace[0]) + Accepted(trace[1..])) == (s.tx + AcceptedIn(trace[0])) + Accepted(trace[1..]);
      assert (given + next.tx) + Accepted(trace[1..]) == given + (next.tx + Accepted(trace[1..]));
      assert given + (Transmitted(trace[1..]) + After(next, rest).tx) == Transmitted(trace) + After(s, ops).tx;
    }
  }

  lemma {:induction false} AfterJoins(s: State, first: seq<Op>, second: seq<Op>)
    requires AllHonest(first + second)
    ensures AllHonest(first) && AllHonest(second)
    ensures After(s, first + second) == After(After(s, first), second)
    decreases first
  {
    assert forall o :: o in first ==> o in first + second;
    assert forall o :: o in second ==> o in first + second;
    if first == [] {
      assert first + second == second;
    } else {
      assert (first + second)[1..] == first[1..] + second;
      AfterJoins(Next(s, first[0]), first[1..], second);
    }
  }

  /** Whatever happened before, and whatever callbacks and calls follow in whatever order: since the
      last connect both streams come out as they went in, with nothing lost, repeated or reordered. */
  lemma StreamsConserved(s: State, before: seq<Op>, connect: Op, since: seq<Op>)
    requires AllHonest(before + [connect] + since)
    requires AllHonest(before) && AllHonest(since)
    requires Restarts(After(s, before), connect)
    requires OneConnection(Initial(), since)
    ensures var end := After(s, before + [connect] + since);
            Delivered(Trace(Initial(), since)) + end.rx == Arrived(Trace(Initial(), since))
    ensures var end := After(s, before + [connect] + since);
            Transmitted(Trace(Initial(), since)) + end.tx == Accepted(Trace(Initial(), since))
  {
    assert connect in before + [connect] + since;
    AfterJoins(s, before + [connect], since);
    AfterJoins(s, before, [connect]);
    assert After(After(s, before), [connect]) == After(Next(After(s, before), connect), [connect][1..]);
    ReceiveFrom(Initial(), since);
    SendFrom(Initial(), since);
    assert [] + Arrived(Trace(Initial(), since)) == Arrived(Trace(Initial(), since));
    assert [] + Accepted(Trace(Initial(), since)) == Accepted(Trace(Initial(), since));
  }

  // ---------------------------------------------------------------------------
  // Refusals and progress
  // ---------------------------------------------------------------------------

  /** A segment is refused exactly when it does not fit. Then what waits is left as it is, the
      connection is marked closed and the stack told to abort, and the error says why. */
  lemma RefusalIsLoud(s: State, e: Callback)
    requires e.segment.Some?
    ensures Answer(s, App(e)).abort <==> |s.rx| + |e.segment.value| > 16384
    ensures Answer(s, App(e)).abort ==>
      Next(s, App(e)).rx == s.rx && Next(s, App(e)).closed && Next(s, App(e)).lastError == EOVERFLOW
  {
  }

  /** A send is accepted exactly if its bytes are there and fit behind those waiting. Otherwise the code
      says whether the call makes no sense, can never succeed, or may succeed later. */
  lemma SendAccepted(s: State, data: Option<seq<Byte>>, length: int)
    requires Honest(Send(data, length))
    ensures var code := Answer(s, Send(data, length)).code; var sane := length >= 0 && (length == 0 || data.Some?);
      && (code == length && length >= 0 <==> sane && length <= 2048 && |s.tx| + length <= 2048)
      && (code == -1 <==> !sane)
      && (code == -3 <==> sane && length > 2048)
      && (code == -2 <==> sane && length <= 2048 && |s.tx| + length > 2048)
      && (code == length && length > 0 ==> Next(s, Send(data, length)).tx == s.tx + data.value[..length])
  {
  }

  /** A receive gives the oldest bytes: as many as the caller has room for, or all there are. */
  lemma ReceiveGives(s: State, hasBuffer: bool, capacity: int)
    ensures var o := Recv(hasBuffer, capacity); var r := Answer(s, o);
      if capacity < 0 || (capacity > 0 && !hasBuffer) then r.code == -1 && r.bytes == []
      else r.code == |r.bytes| && s.rx == r.bytes + Next(s, o).rx
           && |r.bytes| <= capacity && (|r.bytes| == capacity || Next(s, o).rx == [])
  {
  }

  datatype Flag = Established | TimedOut | Closed

  /** What a callback says about the connection. */
  predicate Says(e: Callback, flag: Flag) {
    match flag
    case Established => e.connected
    case TimedOut => e.timedOut
    case Closed => e.aborted || e.closed || e.timedOut
  }

  /** Some callback among the operations says this. */
  ghost predicate Reported(ops: seq<Op>, flag: Flag) {
    exists i | 0 <= i < |ops| :: ops[i].App? && Says(ops[i].event, flag)
  }

  lemma ReportedCons(ops: seq<Op>, flag: Flag)
    requires ops != []
    ensures Reported(ops, flag) <==> (ops[0].App? && Says(ops[0].event, flag)) || Reported(ops[1..], flag)
  {
    if Reported(ops[1..], flag) {
      var i :| 0 <= i < |ops[1..]| && ops[1..][i].App? && Says(ops[1..][i].event, flag);
      assert ops[i + 1].App? && Says(ops[i + 1].event, flag);
    }
    assert forall i | 1 <= i < |ops| :: ops[i] == ops[1..][i - 1];
  }

  /** Within one connection the flags remember: it is established if some callback said so, timed out if
      some callback said so, and closed if one reported an abort, a close or a timeout, or a segment was
      refused. */
  lemma {:induction false} FlagsRemember(s: State, ops: seq<Op>)
    requires AllHonest(ops) && OneConnection(s, ops)
    ensures var end := After(s, ops);
      && (end.established <==> s.established || Reported(ops, Established))
      && (end.timedOut <==> s.timedOut || Reported(ops, TimedOut))
      && (end.closed <==> s.closed || Reported(ops, Closed) || SomeRefused(s, ops))
    decreases ops
  {
    if ops != [] {
      ReportedCons(ops, Established);
      ReportedCons(ops, TimedOut);
      ReportedCons(ops, Closed);
      FlagsStep(s, ops[0]);
      hide Next, Refused, Restarts;
      FlagsRemember(Next(s, ops[0]), ops[1..]);
    }
  }

  /** A segment that came in did not fit. */
  ghost predicate SomeRefused(s: State, ops: seq<Op>)
    requires AllHonest(ops)
    decreases ops
  {
    ops != [] && ((ops[0].App? && Refused(s, ops[0].event)) || SomeRefused(Next(s, ops[0]), ops[1..]))
  }

  lemma FlagsStep(s: State, o: Op)
    requires Honest(o) && !Restarts(s, o)
    ensures var next := Next(s, o);
      && (next.established <==> s.established || (o.App? && Says(o.event, Established)))
      && (next.timedOut <==> s.timedOut || (o.App? && Says(o.event, TimedOut)))
      && (next.closed <==> s.closed || (o.App? && (Says(o.event, Closed) || Refused(s, o.event))))
  {
  }

  /** A call that answers with an error changes nothing, with one exception: a connect that finds no
      free connection has already dropped the old one's bytes, and its code is that of bad input. */
  lemma FailedCallsChangeNothing(s: State, o: Op)
    requires Honest(o) && (o.Send? || o.Recv? || o.Connect?)
    requires Answer(s, o).code < 0
    ensures Next(s, o) == s <==> !(o.Connect? && Restarts(s, o)) || s == Initial()
  {
    if o.Send? {
      assert s.tx + [] == s.tx;
    }
  }

  /** How much the stack is ready to take over a series of callbacks. */
  function Allowance(events: seq<Callback>): nat {
    if events == [] then 0 else (if events[0].poll then events[0].mss else 0) + Allowance(events[1..])
  }

  /** What is left when the oldest bytes, at most so many, are taken. */
  function Without(bytes: seq<Byte>, most: nat): seq<Byte> {
    bytes[Least(|bytes|, most)..]
  }

  /** Progress: callbacks take from the send queue exactly as much as the stack allows, so the queue
      is empty once the allowances add up to its length. */
  lemma {:induction false} PollsDrain(s: State, events: seq<Callback>)
    requires AllHonest(Apps(events))
    ensures After(s, Apps(events)).tx == Without(s.tx, Allowance(events))
    decreases events
  {
    if events == [] {
      assert s.tx[0..] == s.tx;
    } else {
      PollsDrain(Next(s, App(events[0])), events[1..]);
      OnePoll(s, events);
    }
  }

  lemma OnePoll(s: State, events: seq<Callback>)
    requires events != []
    requires var next := Next(s, App(events[0]));
      After(next, Apps(events[1..])).tx == Without(next.tx, Allowance(events[1..]))
    ensures After(s, Apps(events)).tx == Without(s.tx, Allowance(events))
  {
    hide Next, After, Apps, AllHonest, Without;
    OneCallback(s, events[0]);
    AfterFirst(s, events);
    DropTwice(s.tx, if events[0].poll then events[0].mss else 0, Allowance(events[1..]));
  }

  lemma AfterFirst(s: State, events: seq<Callback>)
    requires events != []
    ensures After(s, Apps(events)) == After(Next(s, App(events[0])), Apps(events[1..]))
  {
    hide Next;
    assert Apps(events)[1..] == Apps(events[1..]);
  }

  lemma OneCallback(s: State, e: Callback)
    ensures Next(s, App(e)).tx == Without(s.tx, if e.poll then e.mss else 0)
  {
  }

  lemma DropTwice(bytes: seq<Byte>, a: nat, b: nat)
    ensures Without(Without(bytes, a), b) == Without(bytes, a + b)
  {
  }

  function Apps(events: seq<Callback>): (ops: seq<Op>)
    ensures |ops| == |events|
    ensures AllHonest(ops)
  {
    seq(|events|, i requires 0 <= i < |events| => App(events[i]))
  }

  /** While a poll is running a connect cannot restart anything, so the streams of the connection
      being polled stay whole. */
  lemma NoRestartWhilePolling(s: State, hasAddress: bool, port: int, slotFree: bool)
    requires s.polling
    ensures Next(s, Connect(hasAddress, port, slotFree)) == s
    ensures Answer(s, Connect(hasAddress, port, slotFree)).code == EINVAL
  {
  }
}
