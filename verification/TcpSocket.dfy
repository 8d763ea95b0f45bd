/** The TCP socket as the program has it: one object whose methods read from and write
    to the kernel.  The kernel is an object that answers each call from a script, so a
    claim for every script is a claim for every behaviour of the network. */
module TcpSocket {
  import opened Runs
  import opened Framing
  import opened Slicer
  import opened SocketState
  import SendQueue

  type Chunk = b: Bytes | 0 < |b| <= MAX_SIZE witness [0]

  /** Outcome of a receive: data, end of stream, EAGAIN, ECONNRESET, any other error. */
  datatype RecvResult = Data(bytes: Chunk) | EndOfStream | Again | ConnectionReset | ReceiveFailed

  class Kernel {
    var incoming: seq<RecvResult>
    var writes: seq<SendQueue.WriteResult>
    var wire: Bytes

    constructor (incoming: seq<RecvResult>, writes: seq<SendQueue.WriteResult>)
      ensures this.incoming == incoming && this.writes == writes && wire == []
    {
      this.incoming, this.writes, wire := incoming, writes, [];
    }

    method Recv() returns (r: RecvResult)
      modifies this`incoming
      ensures r == FirstResult(old(incoming)) && incoming == Rest(old(incoming))
    {
      if incoming == [] {
        return Again;
      }
      r := incoming[0];
      incoming := incoming[1..];
    }

    /** Takes between one byte and all of `bytes`, or refuses, as the script has it. */
    method Write(bytes: Bytes) returns (r: SendQueue.WriteResult)
      requires bytes != []
      modifies this`writes, this`wire
      ensures r == Answer(old(writes), |bytes|) && writes == Rest(old(writes))
      ensures wire == old(wire) + if r.Wrote? then bytes[..r.count] else []
    {
      r := Answer(writes, |bytes|);
      writes := Rest(writes);
      if r.Wrote? {
        wire := wire + bytes[..r.count];
      }
    }
  }

  /** How `send` ends: with the answer of `do_send`, or with an exception. */
  datatype SendOutcome = Sent(more: bool) | EmptyMessage | NotOpen | QueueFull | WriteThrew {
    predicate Refused() { EmptyMessage? || NotOpen? || QueueFull? }

    /** The ending of `do_send` that it reports. */
    function Ending(): SendQueue.Ending
      requires !Refused()
    {
      if WriteThrew? then SendQueue.Threw else if more then SendQueue.More else SendQueue.NoMore
    }
  }

  // ---------------------------------------------------------------- what a script amounts to

  function FirstResult(script: seq<RecvResult>): RecvResult {
    if script == [] then Again else script[0]
  }

  function Rest<T>(script: seq<T>): seq<T> {
    if script == [] then [] else script[1..]
  }

  /** The answer to an attempt to write `n` bytes.  A script that is used up blocks. */
  function Answer(script: seq<SendQueue.WriteResult>, n: nat): (r: SendQueue.WriteResult)
    requires n > 0
    ensures r.Wrote? ==> 0 < r.count <= n
    ensures script != [] ==> IsAnswer(script[0], r)
    ensures script == [] ==> r.WouldBlock?
  {
    if script == [] then SendQueue.WouldBlock
    else if !script[0].Wrote? then script[0]
    else if script[0].count == 0 then SendQueue.WroteNothing
    else SendQueue.Wrote(Min(script[0].count, n))
  }

  /** An answer is of the kind that the script has, and takes no more than it says. */
  predicate IsAnswer(given: SendQueue.WriteResult, answer: SendQueue.WriteResult) {
    match answer
    case Wrote(n) => given.Wrote? && 0 < n <= given.count
    case WroteNothing => given.WroteNothing? || given == SendQueue.Wrote(0)
    case _ => answer == given
  }

  /** These are the answers to the writes that took the script to `rest`. */
  ghost predicate Answered(script: seq<SendQueue.WriteResult>, answers: seq<SendQueue.WriteResult>,
                           rest: seq<SendQueue.WriteResult>)
    decreases |answers|
  {
    if answers == [] then rest == script
    else
      && (if script == [] then answers[0].WouldBlock? else IsAnswer(script[0], answers[0]))
      && Answered(Rest(script), answers[1..], rest)
  }

  lemma {:induction false} AnsweredOn(script: seq<SendQueue.WriteResult>, a: seq<SendQueue.WriteResult>,
                                      mid: seq<SendQueue.WriteResult>, b: seq<SendQueue.WriteResult>,
                                      rest: seq<SendQueue.WriteResult>)
    requires Answered(script, a, mid) && Answered(mid, b, rest)
    ensures Answered(script, a + b, rest)
    decreases |a|
  {
    if a == [] {
      assert a + b == b;
    } else {
      assert (a + b)[1..] == a[1..] + b;
      AnsweredOn(Rest(script), a[1..], mid, b, rest);
    }
  }

  lemma AnsweredOne(script: seq<SendQueue.WriteResult>, n: nat)
    requires n > 0
    ensures Answered(script, [Answer(script, n)], Rest(script))
  {
    assert [Answer(script, n)][1..] == [];
  }

  predicate AllWrote(answers: seq<SendQueue.WriteResult>) {
    forall w :: w in answers ==> w.Wrote?
  }

  /** No write found the connection lost or failed. */
  predicate Harmless(answers: seq<SendQueue.WriteResult>) {
    forall w :: w in answers ==> w.Wrote? || w.WouldBlock?
  }

  /** EAGAIN ends `do_send` with true, a lost connection with false, any other failure with
      an exception. */
  function EndingOf(answer: SendQueue.WriteResult): Option<SendQueue.Ending> {
    match answer
    case Wrote(_) => None
    case WouldBlock => Some(SendQueue.More)
    case WroteNothing => Some(SendQueue.NoMore)
    case PeerGone => Some(SendQueue.NoMore)
    case WriteFailed => Some(SendQueue.Threw)
  }

  /** The last answer ends it. */
  predicate EndedBy(answers: seq<SendQueue.WriteResult>, ending: SendQueue.Ending) {
    && answers != [] && AllWrote(answers[..|answers| - 1])
    && EndingOf(answers[|answers| - 1]) == Some(ending)
  }

  /** Since the script was `script`, the kernel has given these answers; they decide whether
      writing has ended, and whether the socket is open. */
  ghost predicate Writing(script: seq<SendQueue.WriteResult>, answers: seq<SendQueue.WriteResult>,
                          rest: seq<SendQueue.WriteResult>, ending: Option<SendQueue.Ending>, open: bool)
  {
    && Answered(script, answers, rest) && (open <==> Harmless(answers))
    && if ending.None? then AllWrote(answers) else EndedBy(answers, ending.value)
  }

  lemma NothingWritten(script: seq<SendQueue.WriteResult>)
    ensures Writing(script, [], script, None, true)
  {
  }

  lemma OneAnswer(script: seq<SendQueue.WriteResult>, answers: seq<SendQueue.WriteResult>,
                  mid: seq<SendQueue.WriteResult>, n: nat)
    requires n > 0 && Writing(script, answers, mid, None, true)
    ensures var w := Answer(mid, n);
            Writing(script, answers + [w], Rest(mid), EndingOf(w), w.Wrote? || w.WouldBlock?)
  {
    var w := Answer(mid, n);
    AnsweredOne(mid, n);
    AnsweredOn(script, answers, mid, [w], Rest(mid));
    assert (answers + [w])[..|answers|] == answers;
    assert w in answers + [w];
  }

  /** One more write. */
  lemma WroteOn(s: SendQueue.Sender, t: SendQueue.Tid, first: seq<SendQueue.Label>, a: seq<SendQueue.WriteResult>,
                q: SendQueue.Sender, second: seq<SendQueue.Label>, w: SendQueue.WriteResult, r: SendQueue.Sender,
                script: seq<SendQueue.WriteResult>, mid: seq<SendQueue.WriteResult>, n: nat)
      returns (steps: seq<SendQueue.Label>, answers: seq<SendQueue.WriteResult>)
    requires SendQueue.Ran(s, t, first, a, q) && SendQueue.Ran(q, t, second, [w], r)
    requires n > 0 && Writing(script, a, mid, None, true) && w == Answer(mid, n)
    ensures SendQueue.Ran(s, t, steps, answers, r)
    ensures Writing(script, answers, Rest(mid), EndingOf(w), w.Wrote? || w.WouldBlock?)
  {
    SendQueue.RanBoth(s, t, first, a, q, second, [w], r);
    OneAnswer(script, a, mid, n);
    steps, answers := first + second, a + [w];
  }

  lemma EndedByOn(a: seq<SendQueue.WriteResult>, b: seq<SendQueue.WriteResult>, ending: SendQueue.Ending)
    requires AllWrote(a) && EndedBy(b, ending)
    ensures EndedBy(a + b, ending)
  {
    assert (a + b)[..|a + b| - 1] == a + b[..|b| - 1];
  }

  /** `do_send` on a socket that is `open` gets these answers: it goes on until nothing is
      left or an answer ends it; on a closed socket it writes nothing. */
  predicate Sends(open: bool, hadSome: bool, answers: seq<SendQueue.WriteResult>, ending: SendQueue.Ending) {
    if !open then answers == [] && ending == (if hadSome then SendQueue.Threw else SendQueue.NoMore)
    else (AllWrote(answers) && ending.NoMore?) || EndedBy(answers, ending)
  }

  lemma SendsOn(open: bool, hadSome: bool, answers: seq<SendQueue.WriteResult>, more: seq<SendQueue.WriteResult>,
                ending: SendQueue.Ending)
    requires AllWrote(answers) && (!open ==> answers == [])
    requires exists had :: Sends(open, had, more, ending) && (!open ==> had == hadSome)
    ensures Sends(open, hadSome, answers + more, ending)
    ensures AllWrote(answers + more) <==> AllWrote(more)
    ensures Harmless(answers + more) <==> Harmless(more)
  {
    if open && EndedBy(more, ending) {
      EndedByOn(answers, more, ending);
    }
  }

  /** On an open socket an exception means a failed write, and true means EAGAIN. */
  lemma SendsShows(hadSome: bool, answers: seq<SendQueue.WriteResult>, ending: SendQueue.Ending)
    ensures Sends(true, hadSome, answers, ending) ==>
              && (ending.Threw? <==> SendQueue.WriteFailed in answers)
              && (ending.More? <==> SendQueue.WouldBlock in answers)
  {
    if answers != [] {
      var init, last := answers[..|answers| - 1], answers[|answers| - 1];
      assert answers == init + [last];
      assert forall w :: w in answers <==> w in init || w == last;
    }
  }

  /** The bytes received before the first result that is not data. */
  function Received(script: seq<RecvResult>): Bytes {
    if FirstResult(script).Data? then script[0].bytes + Received(script[1..]) else []
  }

  /** The first result that is not data. */
  function Ending(script: seq<RecvResult>): RecvResult {
    if FirstResult(script).Data? then Ending(script[1..]) else FirstResult(script)
  }

  /** What is left of the script behind that result. */
  function Later(script: seq<RecvResult>): seq<RecvResult> {
    if FirstResult(script).Data? then Later(script[1..]) else Rest(script)
  }

  /** The results that close the socket. */
  predicate Closes(r: RecvResult) {
    r.EndOfStream? || r.ConnectionReset? || r.ReceiveFailed?
  }

  class TcpSocket {
    const slicer: DatagramMessageSlicer
    const kernel: Kernel
    var state: State
    var fd: int
    const maxSendQueueSize: nat
    var sendQueue: seq<SendQueue.OutMessage>
    var sendQueueSize: int
    var currentMessage: Option<SendQueue.OutMessage>
    var notifications: nat  // calls of notify_all for threads that wait for room

    constructor (kernel: Kernel, maxSendQueueSize: nat)
      ensures NothingQueued() && this.maxSendQueueSize == maxSendQueueSize
      ensures Valid() && Sock() == FRESH && this.kernel == kernel
      ensures fresh(slicer) && fresh(slicer.buffer) && fresh(slicer.buffer.data)
      ensures slicer.Payloads() == [] && slicer.Tail() == [] && slicer.buffer.size == 0
    {
      this.kernel := kernel;
      slicer := new DatagramMessageSlicer();
      state, fd := Unknown, -1;
      this.maxSendQueueSize := maxSendQueueSize;
      sendQueue, sendQueueSize, currentMessage, notifications := [], 0, None, 0;
    }

    /** The child socket of an accepted connection; see `SocketState.AcceptedSafeIff`. */
    constructor Accepted(kernel: Kernel, fd: nat, maxSendQueueSize: nat)
      ensures NothingQueued() && this.maxSendQueueSize == maxSendQueueSize
      ensures slicer.Valid() && (Valid() <==> fd > 0) && Sock() == SocketState.Sock(Connected, fd) && this.kernel == kernel
      ensures fresh(slicer) && fresh(slicer.buffer) && fresh(slicer.buffer.data)
      ensures slicer.Payloads() == [] && slicer.Tail() == [] && slicer.buffer.size == 0
    {
      this.kernel := kernel;
      slicer := new DatagramMessageSlicer();
      state, this.fd := Connected, fd;
      this.maxSendQueueSize := maxSendQueueSize;
      sendQueue, sendQueueSize, currentMessage, notifications := [], 0, None, 0;
    }

    ghost predicate NothingQueued()
      reads this
    {
      sendQueue == [] && sendQueueSize == 0 && currentMessage.None?
    }

    ghost predicate Valid()
      reads this, slicer, slicer.buffer
    {
      slicer.Valid() && Sock().Healthy()
    }

    ghost function Sock(): Sock
      reads this
    {
      SocketState.Sock(state, fd)
    }

    predicate IsValid()
      reads this
    {
      fd > 0
    }

    method Close(fast: bool, result: ShutdownResult) returns (closed: bool)
      requires slicer.buffer.data.Length == MAX_SIZE
      requires !Sock().CloseAborts(fast)
      modifies this`state, this`fd, this`notifications, slicer.buffer
      ensures Sock() == old(Sock()).Close(fast, result)
      ensures closed == old(Sock()).ClosesNow(fast, result)
      ensures old(slicer.buffer.Valid()) ==> slicer.buffer.Valid()
      ensures old(IsValid()) && !IsValid() ==> slicer.buffer.Valid() && slicer.buffer.size == 0
      ensures IsValid() ==> unchanged(slicer.buffer)
      ensures notifications == old(notifications) + if old(state) == Connected && !fast then 0 else 1
    {
      if state == Connected && !fast {
        state := Shutdown;
        if result == NotConnected {
          fd := -1;
          state := Closed;
          slicer.buffer.Reset();
          return true;
        }
        return false;
      }
      if fd > 0 {
        state := Closed;
        fd := -1;
        slicer.buffer.Reset();
      } else if !(state == Closed || state == Unknown) {
        assert false;  // invalid state
      }
      notifications := notifications + 1;
      closed := true;
    }

    /** Refills the buffer; the exceptions are leftover data and an unexpected error. */
    method ReceiveData() returns (received: bool, threw: bool)
      requires Valid()
      modifies this`state, this`fd, this`notifications, slicer.buffer, slicer.buffer.data, kernel`incoming
      ensures Valid() && slicer.Tail() == old(slicer.Tail()) && slicer.Payloads() == old(slicer.Payloads())
      ensures !old(IsValid()) ==>
                !received && !threw && kernel.incoming == old(kernel.incoming)
                && Sock() == old(Sock()) && unchanged(slicer.buffer)
      ensures old(IsValid() && slicer.buffer.IsValid()) ==>
                !received && threw && kernel.incoming == old(kernel.incoming)
                && Sock() == old(Sock()) && unchanged(slicer.buffer)
      ensures old(IsValid() && !slicer.buffer.IsValid()) ==>
                var r := FirstResult(old(kernel.incoming));
                && kernel.incoming == Rest(old(kernel.incoming))
                && received == r.Data? && threw == r.ReceiveFailed?
                && Sock() == (if Closes(r) then old(Sock()).Close(true, ShutdownDone) else old(Sock()))
                && (slicer.buffer.size > 0 <==> r.Data?)
                && slicer.buffer.Unread() == (if r.Data? then r.bytes else [])
    {
      received, threw := false, false;
      if !IsValid() {
        return;
      }
      if slicer.buffer.IsValid() {
        return false, true;
      }
      var r := kernel.Recv();
      match r {
        case Data(bytes) =>
          slicer.buffer.Fill(bytes);
          received := true;
        case EndOfStream =>
          var _ := Close(true, ShutdownDone);
        case Again =>
        case ConnectionReset =>
          var _ := Close(true, ShutdownDone);
        case ReceiveFailed =>
          var _ := Close(true, ShutdownDone);
          threw := true;
      }
    }

    /** Everything that is still to come before the next pause of the stream. */
    ghost function Pending(): Bytes
      requires Valid()
      reads this, slicer, slicer.buffer, slicer.buffer.data, kernel
    {
      slicer.buffer.Unread() + if IsValid() then Received(kernel.incoming) else []
    }

    /** The kernel's part of a pause in the stream whose script was `script`. */
    twostate predicate Paused(script: seq<RecvResult>, threw: bool)
      reads this, kernel
    {
      if old(IsValid()) then
        && kernel.incoming == Later(script)
        && threw == Ending(script).ReceiveFailed?
        && Sock() == (if Closes(Ending(script)) then SocketState.Sock(Closed, -1) else old(Sock()))
      else
        kernel.incoming == script && !threw && Sock() == old(Sock())
    }

    /** A refill moves the next chunk of the stream into the buffer, or finds a pause. */
    method Refill() returns (received: bool, threw: bool)
      requires Valid() && !slicer.buffer.IsValid()
      modifies this`state, this`fd, this`notifications, slicer.buffer, slicer.buffer.data, kernel`incoming
      ensures Valid() && slicer.Tail() == old(slicer.Tail()) && slicer.Payloads() == old(slicer.Payloads())
      ensures received ==>
                && slicer.buffer.IsValid() && Pending() == old(Pending()) && Sock() == old(Sock()) && IsValid()
                && |kernel.incoming| < |old(kernel.incoming)|
                && Later(kernel.incoming) == Later(old(kernel.incoming))
                && Ending(kernel.incoming) == Ending(old(kernel.incoming))
      ensures !received ==>
                slicer.buffer.size == 0 && old(Pending()) == [] && Paused(old(kernel.incoming), threw)
    {
      received, threw := ReceiveData();
    }

    /** One round of the slicer; an invalid header is logged and ignored. */
    method ProcessOne()
      requires Valid() && slicer.buffer.IsValid()
      modifies slicer, slicer.buffer
      ensures Valid() && slicer.Work() < old(slicer.Work())
      ensures Gained(old(slicer.Tail()) + old(Pending()), old(slicer.Payloads()),
                     slicer.Payloads(), slicer.Tail() + Pending())
    {
      ghost var t, u, ps := slicer.Tail(), slicer.buffer.Unread(), slicer.Payloads();
      ghost var more := if IsValid() then Received(kernel.incoming) else [];
      var invalidHeader := slicer.ProcessBuffer();
      SlicedStep(t, u, slicer.Tail(), slicer.buffer.Unread(), slicer.Payloads()[|ps|..], invalidHeader, more);
    }

    /** One turn of the loop in `PullMessages`: refill if the buffer is used up, then slice. */
    method PullRound() returns (paused: bool, threw: bool)
      requires Valid()
      modifies this`state, this`fd, this`notifications, slicer, slicer.buffer, slicer.buffer.data, kernel`incoming
      ensures Valid()
      ensures paused ==>
                && slicer.buffer.size == 0 && old(Pending()) == [] && Paused(old(kernel.incoming), threw)
                && slicer.Tail() == old(slicer.Tail()) && slicer.Payloads() == old(slicer.Payloads())
      ensures !paused ==>
                && Sock() == old(Sock()) && Flowing(old(kernel.incoming))
                && Gained(old(slicer.Tail()) + old(Pending()), old(slicer.Payloads()),
                          slicer.Payloads(), slicer.Tail() + Pending())
                && (|kernel.incoming| < |old(kernel.incoming)|
                    || (|kernel.incoming| == |old(kernel.incoming)| && slicer.Work() < old(slicer.Work())))
    {
      if !slicer.buffer.IsValid() {
        var received;
        received, threw := Refill();
        if !received {
          return true, threw;
        }
      }
      ProcessOne();
      paused, threw := false, false;
    }

    /** The script is where `script` was, up to data already taken from it. */
    ghost predicate Flowing(script: seq<RecvResult>)
      reads this, kernel
    {
      if IsValid() then Later(kernel.incoming) == Later(script) && Ending(kernel.incoming) == Ending(script)
      else kernel.incoming == script
    }

    /** Pulls until the kernel has no more data.  However the stream was cut into chunks,
        the messages and the tail are those of the one-shot decoder. */
    method PullMessages() returns (threw: bool)
      requires Valid()
      modifies this`state, this`fd, this`notifications, slicer, slicer.buffer, slicer.buffer.data, kernel`incoming
      ensures Valid() && slicer.buffer.size == 0
      ensures Pulled(old(slicer.Payloads()), Decode(old(slicer.Tail()) + old(Pending())),
                     slicer.Payloads(), slicer.Tail())
      ensures Paused(old(kernel.incoming), threw)
    {
      ghost var start, stream := slicer.Payloads(), slicer.Tail() + Pending();
      GainedNothing(stream, start);
      while true
        invariant Valid() && Sock() == old(Sock()) && Flowing(old(kernel.incoming))
        invariant Gained(stream, start, slicer.Payloads(), slicer.Tail() + Pending())
        decreases |kernel.incoming|, slicer.Work()
      {
        ghost var ps, before := slicer.Payloads(), slicer.Tail() + Pending();
        var paused;
        paused, threw := PullRound();
        if paused {
          GainedAll(stream, start, slicer.Payloads(), slicer.Tail());
          return;
        }
        GainedMore(stream, start, ps, before, slicer.Payloads(), slicer.Tail() + Pending());
      }
    }

    /** Pulls, then gives out the oldest message if there is one. */
    method Receive() returns (message: Option<Bytes>, threw: bool)
      requires Valid()
      modifies this`state, this`fd, this`notifications, slicer, slicer.buffer, slicer.buffer.data, kernel`incoming
      ensures Valid() && slicer.buffer.size == 0
      ensures GivenOut(old(slicer.Payloads()), Decode(old(slicer.Tail()) + old(Pending())),
                       message, slicer.Payloads(), slicer.Tail())
      ensures Paused(old(kernel.incoming), threw)
      ensures message.None? ==> threw || slicer.Payloads() == []
      ensures threw ==> message.None?
    {
      ghost var ps, d := slicer.Payloads(), Decode(slicer.Tail() + Pending());
      threw := PullMessages();
      ghost var pulled := slicer.Payloads();
      if threw {
        message := None;
        assert pulled == One(message) + pulled;
      } else {
        message := slicer.GetMessage();
      }
      GiveFirst(ps, d, pulled, message, slicer.Payloads(), slicer.Tail());
    }

    // -------------------------------------------------------------- sending

    /** The object is in the state `s` of the transition system of senders. */
    ghost predicate Shows(s: SendQueue.Sender)
      reads this, kernel
    {
      && s.limit == maxSendQueueSize && s.queue == sendQueue && s.queueSize == sendQueueSize
      && s.current == currentMessage && s.open == IsValid() && s.wire == kernel.wire
    }

    /** The head of the loop in `do_send`: takes the next message unless there is one in hand. */
    method TakeNext(ghost me: SendQueue.Tid, ghost s: SendQueue.Sender) returns (have: bool, ghost r: SendQueue.Sender)
      requires SendQueue.Reachable(s) && Shows(s) && s.At(me).Top?
      modifies `sendQueue, `sendQueueSize, `currentMessage, `notifications
      ensures SendQueue.Ran(s, me, [SendQueue.Dequeue(me)], [], r) && Shows(r) && r.accepted == s.accepted
      ensures have == currentMessage.Some? == (old(InHand()) > 0)
      ensures have ==> r.At(me).Have? && InHand() == old(InHand())
      ensures notifications == old(notifications) + if sendQueue != old(sendQueue) then 1 else 0
      ensures !have ==> r.At(me).Idle? && r.lock.None? && sendQueue == []
    {
      r := SendQueue.Dequeued(s, me);
      SendQueue.RanOne(s, me, SendQueue.Dequeue(me), r);
      if currentMessage.None? {
        if sendQueue == [] {
          return false, r;
        }
        currentMessage := Some(sendQueue[0]);
        sendQueueSize := sendQueueSize - currentMessage.value.length;
        notifications := notifications + 1;
        sendQueue := sendQueue[1..];
      }
      have := true;
    }

    /** Messages queued or in hand. */
    ghost function InHand(): nat
      reads this
    {
      |sendQueue| + if currentMessage.Some? then 1 else 0
    }

    /** A failed write closes the socket; closing notifies whoever waits for room. */
    method GiveUp(ghost me: SendQueue.Tid, ghost s: SendQueue.Sender, ghost w: SendQueue.WriteResult)
      returns (ghost steps: seq<SendQueue.Label>, ghost r: SendQueue.Sender)
      requires Valid() && IsValid() && SendQueue.Reachable(s) && Shows(s) && s.At(me).Writing?
      requires s.current.Some? && s.current.value.sentPos < s.current.value.length
      requires w.WroteNothing? || w.PeerGone? || w.WriteFailed?
      modifies `notifications, `state, `fd, slicer.buffer
      ensures notifications == old(notifications) + 1
      ensures Valid() && !IsValid() && SendQueue.Ran(s, me, steps, [w], r) && Shows(r) && r.accepted == s.accepted
      ensures r.At(me).Idle? && r.lock.None?
    {
      steps, r := SendQueue.TookFailedWrite(s, me, w);
      var _ := Close(true, ShutdownDone);
    }

    /** One write of the rest of the current message.  The answer decides: bytes taken are
        not offered again, EAGAIN leaves everything as it is, anything else closes. */
    method WriteOnce(ghost me: SendQueue.Tid, ghost s: SendQueue.Sender)
      returns (ending: Option<SendQueue.Ending>, ghost steps: seq<SendQueue.Label>,
               ghost w: SendQueue.WriteResult, ghost r: SendQueue.Sender)
      requires Valid() && IsValid()
      requires SendQueue.Reachable(s) && Shows(s) && s.At(me).Writing?
      requires currentMessage.Some? && currentMessage.value.sentPos < currentMessage.value.length
      modifies `currentMessage, `notifications, `state, `fd, slicer.buffer, kernel`writes, kernel`wire
      ensures Valid() && SendQueue.Ran(s, me, steps, [w], r) && Shows(r) && r.accepted == s.accepted
      ensures w == Answer(old(kernel.writes), old(currentMessage.value.length - currentMessage.value.sentPos))
      ensures kernel.writes == Rest(old(kernel.writes))
      ensures ending == EndingOf(w)
      ensures IsValid() <==> w.Wrote? || w.WouldBlock?
      ensures currentMessage == if w.Wrote?
                                then Some(old(currentMessage.value).(sentPos := old(currentMessage.value.sentPos) + w.count))
                                else old(currentMessage)
      ensures if w.Wrote? then r.At(me).Writing? else r.At(me).Idle? && r.lock.None?
    {
      SendQueue.ReachableMessage(s);
      var m := currentMessage.value;
      var answer := kernel.Write(m.data[m.sentPos..m.length]);
      w := answer;
      match answer {
        case Wrote(n) =>
          currentMessage := Some(m.(sentPos := m.sentPos + n));
          steps := [SendQueue.Write(me, w)];
          r := SendQueue.RanWrote(s, me, n);
          ending := None;
        case WouldBlock =>
          steps := [SendQueue.Write(me, w)];
          r := SendQueue.RanBlocked(s, me);
          ending := Some(SendQueue.More);
        case _ =>
          steps, r := GiveUp(me, s, w);
          ending := Some(if answer.WriteFailed? then SendQueue.Threw else SendQueue.NoMore);
      }
    }

    /** The inner loop of `do_send`: writes until the message is out or writing ends. */
    method WriteRest(ghost me: SendQueue.Tid, ghost s: SendQueue.Sender)
      returns (ending: Option<SendQueue.Ending>, ghost steps: seq<SendQueue.Label>,
               ghost answers: seq<SendQueue.WriteResult>, ghost r: SendQueue.Sender)
      requires Valid() && IsValid()
      requires SendQueue.Reachable(s) && Shows(s) && s.At(me).Writing? && currentMessage.Some?
      modifies `currentMessage, `notifications, `state, `fd, slicer.buffer, kernel`writes, kernel`wire
      ensures Valid() && SendQueue.Ran(s, me, steps, answers, r) && Shows(r) && r.accepted == s.accepted
      ensures Writing(old(kernel.writes), answers, kernel.writes, ending, IsValid())
      ensures currentMessage.Some? && (ending.None? <==> currentMessage.value.sentPos >= currentMessage.value.length)
      ensures if ending.None? then r.At(me).Writing? else r.At(me).Idle? && r.lock.None?
    {
      steps, answers, r := [], [], s;
      SendQueue.RanNothing(s, me);
      NothingWritten(kernel.writes);
      while currentMessage.value.sentPos < currentMessage.value.length
        invariant Valid() && IsValid() && currentMessage.Some?
        invariant SendQueue.Ran(s, me, steps, answers, r) && Shows(r) && r.accepted == s.accepted && r.At(me).Writing?
        invariant Writing(old(kernel.writes), answers, kernel.writes, None, true)
        decreases currentMessage.value.length - currentMessage.value.sentPos
      {
        ghost var more, w, q, mid := [], SendQueue.WouldBlock, r, kernel.writes;
        ghost var left := currentMessage.value.length - currentMessage.value.sentPos;
        ending, more, w, r := WriteOnce(me, q);
        steps, answers := WroteOn(s, me, steps, answers, q, more, w, r, old(kernel.writes), mid, left);
        if ending.Some? {
          return;
        }
      }
      ending := None;
    }

    /** The same, and then lets go of a message that is out. */
    method WriteCurrent(ghost me: SendQueue.Tid, ghost s: SendQueue.Sender)
      returns (ending: Option<SendQueue.Ending>, ghost steps: seq<SendQueue.Label>,
               ghost answers: seq<SendQueue.WriteResult>, ghost r: SendQueue.Sender)
      requires Valid() && IsValid()
      requires SendQueue.Reachable(s) && Shows(s) && s.At(me).Writing? && currentMessage.Some?
      modifies `currentMessage, `notifications, `state, `fd, slicer.buffer, kernel`writes, kernel`wire
      ensures Valid() && SendQueue.Ran(s, me, steps, answers, r) && Shows(r) && r.accepted == s.accepted
      ensures Writing(old(kernel.writes), answers, kernel.writes, ending, IsValid())
      ensures if ending.None? then r.At(me).Top? && currentMessage.None?
              else r.At(me).Idle? && r.lock.None? && currentMessage.Some?
                   && currentMessage.value.sentPos < currentMessage.value.length
    {
      ending, steps, answers, r := WriteRest(me, s);
      if ending.None? {
        ghost var q := r;
        r := FinishMessage(me, q);
        steps := SendQueue.RanThen(s, me, steps, answers, q, [SendQueue.FinishMessage(me)], r);
      }
    }

    /** A message that is written out is let go of. */
    method FinishMessage(ghost me: SendQueue.Tid, ghost s: SendQueue.Sender) returns (ghost r: SendQueue.Sender)
      requires SendQueue.Reachable(s) && Shows(s) && s.At(me).Writing?
      requires currentMessage.Some? && currentMessage.value.sentPos >= currentMessage.value.length
      modifies `currentMessage
      ensures SendQueue.Ran(s, me, [SendQueue.FinishMessage(me)], [], r) && Shows(r) && r.accepted == s.accepted
      ensures r.At(me).Top? && currentMessage.None?
    {
      SendQueue.ReachableMessage(s);
      r := s.Goto(me, SendQueue.Top).(current := None);
      SendQueue.RanOne(s, me, SendQueue.FinishMessage(me), r);
      currentMessage := None;
    }

    /** A message is only written if the socket is open. */
    method CheckOpen(ghost me: SendQueue.Tid, ghost s: SendQueue.Sender) returns (open: bool, ghost r: SendQueue.Sender)
      requires SendQueue.Reachable(s) && Shows(s) && s.At(me).Have?
      ensures SendQueue.Ran(s, me, [SendQueue.CheckOpen(me)], [], r) && Shows(r) && r.accepted == s.accepted
      ensures open == IsValid()
      ensures if open then r.At(me).Writing? else r.At(me).Idle? && r.lock.None?
    {
      open := IsValid();
      r := if open then s.Goto(me, SendQueue.Writing) else s.Leave(me);
      SendQueue.RanOne(s, me, SendQueue.CheckOpen(me), r);
    }

    /** One turn of the loop in `do_send`: takes a message, checks the socket, writes. */
    method SendOne(ghost me: SendQueue.Tid, ghost s: SendQueue.Sender)
      returns (ending: Option<SendQueue.Ending>, ghost steps: seq<SendQueue.Label>,
               ghost answers: seq<SendQueue.WriteResult>, ghost r: SendQueue.Sender)
      requires Valid() && SendQueue.Reachable(s) && Shows(s) && s.At(me).Top?
      modifies `sendQueue, `sendQueueSize, `currentMessage, `notifications, `state, `fd, slicer.buffer,
               kernel`writes, kernel`wire
      ensures Valid() && SendQueue.Ran(s, me, steps, answers, r) && Shows(r) && r.accepted == s.accepted
      ensures Answered(old(kernel.writes), answers, kernel.writes)
      ensures if ending.None? then old(IsValid()) && AllWrote(answers)
              else Sends(old(IsValid()), old(InHand()) > 0, answers, ending.value)
      ensures IsValid() <==> old(IsValid()) && Harmless(answers)
      ensures ending.None? ==> r.At(me).Top? && InHand() < old(InHand())
      ensures ending.Some? ==> r.At(me).Idle? && r.lock.None?
      ensures ending.Some? && AllWrote(answers) && IsValid() ==> InHand() == 0
      ensures ending == Some(SendQueue.More) ==>
                currentMessage.Some? && currentMessage.value.sentPos < currentMessage.value.length
    {
      var have;
      have, r := TakeNext(me, s);
      steps, answers := [SendQueue.Dequeue(me)], [];
      if !have {
        return Some(SendQueue.NoMore), steps, answers, r;
      }
      ghost var q, more := r, [];
      var open;
      open, r := CheckOpen(me, q);
      steps := SendQueue.RanThen(s, me, steps, [], q, [SendQueue.CheckOpen(me)], r);
      if !open {
        return Some(SendQueue.Threw), steps, answers, r;
      }
      q := r;
      ending, more, answers, r := WriteCurrent(me, q);
      steps := SendQueue.ThenRan(s, me, steps, q, more, answers, r);
    }

    /** Sends what is queued.  Every action is a step of the transition system, so all that
        holds there in every run holds of this code: run alone it is one of those runs.  What
        it comes to follows from the answers of the kernel. */
    method DoSend(ghost me: SendQueue.Tid, ghost s: SendQueue.Sender)
      returns (ending: SendQueue.Ending, ghost steps: seq<SendQueue.Label>,
               ghost answers: seq<SendQueue.WriteResult>, ghost r: SendQueue.Sender)
      requires Valid() && SendQueue.Reachable(s) && Shows(s) && s.At(me).WantSend? && s.lock.None?
      modifies `sendQueue, `sendQueueSize, `currentMessage, `notifications, `state, `fd, slicer.buffer,
               kernel`writes, kernel`wire
      ensures Valid() && SendQueue.Ran(s, me, steps, answers, r) && Shows(r) && r.accepted == s.accepted
      ensures r.At(me).Idle? && r.lock.None?
      ensures Answered(old(kernel.writes), answers, kernel.writes)
      ensures Sends(old(IsValid()), old(InHand()) > 0, answers, ending)
      ensures IsValid() <==> old(IsValid()) && Harmless(answers)
      ensures old(IsValid()) ==>
                && (ending.Threw? <==> SendQueue.WriteFailed in answers)
                && (ending.More? <==> SendQueue.WouldBlock in answers)
      ensures AllWrote(answers) && IsValid() ==> InHand() == 0
      ensures |kernel.wire| == |old(kernel.wire)| + SendQueue.Total(answers) && old(kernel.wire) <= kernel.wire
      ensures ending.More? ==> currentMessage.Some? && currentMessage.value.sentPos < currentMessage.value.length
    {
      r := s.Goto(me, SendQueue.Top).(lock := Some(me));
      steps, answers := [SendQueue.LockSend(me)], [];
      SendQueue.RanOne(s, me, SendQueue.LockSend(me), r);
      ghost var open, hadSome := IsValid(), InHand() > 0;
      while true
        invariant Valid() && SendQueue.Ran(s, me, steps, answers, r) && Shows(r) && r.At(me).Top? && r.accepted == s.accepted
        invariant Answered(old(kernel.writes), answers, kernel.writes) && AllWrote(answers)
        invariant IsValid() == open && (!open ==> answers == [] && (InHand() > 0) == hadSome)
        decreases InHand()
      {
        ghost var q, more, new_, script := r, [], [], kernel.writes;
        var end;
        end, more, new_, r := SendOne(me, q);
        SendQueue.RanBoth(s, me, steps, answers, q, more, new_, r);
        AnsweredOn(old(kernel.writes), answers, script, new_, kernel.writes);
        if end.Some? {
          ending := end.value;
          SendsOn(open, hadSome, answers, new_, ending);
          SendsShows(hadSome, answers + new_, ending);
          steps, answers := steps + more, answers + new_;
          SendQueue.ReachableIsSafe(s);
          SendQueue.WireCounts(s, steps, r);
          return;
        }
        steps, answers := steps + more, answers + new_;
      }
    }

    /** Frames a message and puts it at the end of the queue, unless the queue is full. */
    method Append(payload: array<Byte>, async: bool, ghost me: SendQueue.Tid, ghost s: SendQueue.Sender)
      returns (full: bool, ghost steps: seq<SendQueue.Label>, ghost r: SendQueue.Sender)
      requires 0 < payload.Length && payload.Length + HEADER_SIZE < U32
      requires IsValid() && SendQueue.Reachable(s) && Shows(s) && s.At(me).Idle?
      modifies `sendQueue, `sendQueueSize
      ensures SendQueue.Ran(s, me, steps, [], r) && Shows(r) && r.lock == s.lock
      ensures full == (old(sendQueueSize) >= maxSendQueueSize)
      ensures full ==> unchanged(this) && r.accepted == s.accepted && r.At(me).Idle?
      ensures !full ==>
                && sendQueue == old(sendQueue) + [SendQueue.OutMessage(Frame(payload[..]), |Frame(payload[..])|, 0)]
                && r.accepted == s.accepted + [payload[..]]
      ensures !full ==> if async then r.At(me).Idle? else r.At(me).WantSend?
    {
      steps, r := SendQueue.TookEnqueue(s, me, payload[..], async);
      full := sendQueueSize >= maxSendQueueSize;
      if !full {
        var block := PrepareMessage(payload);
        var message := SendQueue.OutMessage(block[..], block.Length, 0);
        sendQueueSize := sendQueueSize + message.length;
        sendQueue := sendQueue + [message];
      }
    }

    /** The part of `send` before it writes: `refused` is the exception it throws, if any. */
    method Accept(payload: array<Byte>, async: bool, ghost me: SendQueue.Tid, ghost s: SendQueue.Sender)
      returns (refused: Option<SendOutcome>, ghost steps: seq<SendQueue.Label>, ghost r: SendQueue.Sender)
      requires payload.Length + HEADER_SIZE < U32
      requires Valid() && SendQueue.Reachable(s) && Shows(s) && s.At(me).Idle?
      modifies `sendQueue, `sendQueueSize
      ensures SendQueue.Ran(s, me, steps, [], r) && Shows(r) && r.lock == s.lock
      ensures refused == if payload.Length == 0 then Some(EmptyMessage)
                         else if !old(IsValid()) then Some(NotOpen)
                         else if old(sendQueueSize) >= maxSendQueueSize then Some(QueueFull) else None
      ensures refused.Some? ==> unchanged(this) && r.accepted == s.accepted && r.At(me).Idle?
      ensures refused.None? ==>
                && sendQueue == old(sendQueue) + [SendQueue.OutMessage(Frame(payload[..]), |Frame(payload[..])|, 0)]
                && r.accepted == s.accepted + [payload[..]]
                && if async then r.At(me).Idle? else r.At(me).WantSend?
    {
      steps, r := [], s;
      SendQueue.RanNothing(s, me);
      if payload.Length == 0 {
        return Some(EmptyMessage), steps, r;
      }
      if !IsValid() {
        return Some(NotOpen), steps, r;
      }
      var full;
      full, steps, r := Append(payload, async, me, s);
      refused := if full then Some(QueueFull) else None;
    }

    /** The part of `send` that writes. */
    method Drain(ghost me: SendQueue.Tid, ghost s: SendQueue.Sender)
      returns (outcome: SendOutcome, ghost steps: seq<SendQueue.Label>,
               ghost answers: seq<SendQueue.WriteResult>, ghost r: SendQueue.Sender)
      requires Valid() && SendQueue.Reachable(s) && Shows(s) && s.At(me).WantSend? && s.lock.None?
      requires IsValid() && sendQueue != []
      modifies `sendQueue, `sendQueueSize, `currentMessage, `notifications, `state, `fd, slicer.buffer,
               kernel`writes, kernel`wire
      ensures Valid() && SendQueue.Ran(s, me, steps, answers, r) && Shows(r) && r.At(me).Idle? && r.lock.None?
      ensures r.accepted == s.accepted && !outcome.Refused()
      ensures Drained(answers, outcome)
      ensures outcome == Sent(false) ==> (sendQueue == [] && currentMessage.None?) || !IsValid()
      ensures outcome == Sent(true) ==> currentMessage.Some?
      ensures outcome.WriteThrew? ==> !IsValid()
    {
      var ending;
      ending, steps, answers, r := DoSend(me, s);
      outcome := match ending case More => Sent(true) case NoMore => Sent(false) case Threw => WriteThrew;
    }

    /** An open socket with something to send got these answers: they decide what is
        reported, whether the socket is still open and how many bytes went out, and if
        each took some bytes nothing is left. */
    twostate predicate Drained(answers: seq<SendQueue.WriteResult>, outcome: SendOutcome)
      requires !outcome.Refused()
      reads this, kernel
    {
      && Answered(old(kernel.writes), answers, kernel.writes)
      && Sends(true, true, answers, outcome.Ending()) && (IsValid() <==> Harmless(answers))
      && (outcome.WriteThrew? <==> SendQueue.WriteFailed in answers)
      && (outcome == Sent(true) <==> SendQueue.WouldBlock in answers)
      && (AllWrote(answers) ==> InHand() == 0)
      && |kernel.wire| == |old(kernel.wire)| + SendQueue.Total(answers) && old(kernel.wire) <= kernel.wire
    }

    /** Frames a message and queues it, then drains the queue unless told not to.  The
        exceptions are an empty message, a closed socket, a full queue and a failed write.
        The message is accepted unless one of the first three is thrown; only then, and if it
        is not told otherwise, does it write. */
    method Send(payload: array<Byte>, async: bool, ghost me: SendQueue.Tid, ghost s: SendQueue.Sender)
      returns (outcome: SendOutcome, ghost steps: seq<SendQueue.Label>,
               ghost answers: seq<SendQueue.WriteResult>, ghost r: SendQueue.Sender)
      requires payload.Length + HEADER_SIZE < U32
      requires Valid() && SendQueue.Reachable(s) && Shows(s) && s.At(me).Idle? && s.lock.None?
      modifies `sendQueue, `sendQueueSize, `currentMessage, `notifications, `state, `fd, slicer.buffer,
               kernel`writes, kernel`wire
      ensures Valid() && SendQueue.Ran(s, me, steps, answers, r) && Shows(r) && r.At(me).Idle? && r.lock.None?
      ensures outcome.EmptyMessage? <==> payload.Length == 0
      ensures outcome.NotOpen? <==> payload.Length > 0 && !old(IsValid())
      ensures outcome.QueueFull? <==>
                payload.Length > 0 && old(IsValid()) && old(sendQueueSize) >= maxSendQueueSize
      ensures outcome.Refused() ==> unchanged(this) && unchanged(kernel) && answers == []
      ensures !outcome.Refused() && async ==>
                && outcome == Sent(true) && unchanged(kernel) && answers == [] && IsValid()
                && InHand() == old(InHand()) + 1
      ensures !outcome.Refused() && !async ==> Drained(answers, outcome)
      ensures outcome == Sent(false) ==> (sendQueue == [] && currentMessage.None?) || !IsValid()
      ensures outcome == Sent(true) ==> sendQueue != [] || currentMessage.Some?
      ensures outcome.WriteThrew? ==> !IsValid()
    {
      var refused;
      answers := [];
      refused, steps, r := Accept(payload, async, me, s);
      if refused.Some? {
        return refused.value, steps, answers, r;
      }
      if async {
        return Sent(true), steps, answers, r;
      }
      ghost var q, more := r, [];
      outcome, more, answers, r := Drain(me, q);
      steps := SendQueue.ThenRan(s, me, steps, q, more, answers, r);
    }
  }

  /** The decoded messages join the queued messages `ps`. */
  ghost predicate Pulled(ps: seq<Bytes>, d: Decoded, ps': seq<Bytes>, tail: Bytes) {
    ps' == ps + d.messages && tail == d.rest
  }

  /** Of the queued messages `ps` and the decoded ones, the first is given out and the
      others are queued. */
  ghost predicate GivenOut(ps: seq<Bytes>, d: Decoded, message: Option<Bytes>, ps': seq<Bytes>, tail: Bytes) {
    && ps + d.messages == One(message) + ps'
    && tail == d.rest
  }

  lemma GiveFirst(ps: seq<Bytes>, d: Decoded, pulled: seq<Bytes>, message: Option<Bytes>, ps': seq<Bytes>, tail: Bytes)
    requires Pulled(ps, d, pulled, tail) && pulled == One(message) + ps'
    ensures GivenOut(ps, d, message, ps', tail)
  {
  }

  /** Having decoded `done` from `stream`, what is left to decode is `left`. */
  ghost predicate Progress(stream: Bytes, done: seq<Bytes>, left: Bytes) {
    Decode(stream) == Decoded(done, []).Then(Decode(left))
  }

  lemma ProgressStarts(stream: Bytes)
    ensures Progress(stream, [], stream)
  {
    assert [] + Decode(stream).messages == Decode(stream).messages;
  }

  lemma ProgressContinues(stream: Bytes, done: seq<Bytes>, left: Bytes, more: seq<Bytes>, left': Bytes)
    requires Progress(stream, done, left) && Progress(left, more, left')
    ensures Progress(stream, done + more, left')
  {
    ThenAssociative(Decoded(done, []), Decoded(more, []), Decode(left'));
  }

  /** The messages decoded so far are those by which `ps'` extends `ps`. */
  ghost predicate Gained(stream: Bytes, ps: seq<Bytes>, ps': seq<Bytes>, left: Bytes) {
    ps <= ps' && Progress(stream, ps'[|ps|..], left)
  }

  lemma GainedNothing(stream: Bytes, ps: seq<Bytes>)
    ensures Gained(stream, ps, ps, stream)
  {
    ProgressStarts(stream);
    assert ps[|ps|..] == [];
  }

  lemma GainedMore(stream: Bytes, ps: seq<Bytes>, ps': seq<Bytes>, left: Bytes, ps'': seq<Bytes>, left': Bytes)
    requires Gained(stream, ps, ps', left) && Gained(left, ps', ps'', left')
    ensures Gained(stream, ps, ps'', left')
  {
    ProgressContinues(stream, ps'[|ps|..], left, ps''[|ps'|..], left');
    assert ps''[|ps|..] == ps'[|ps|..] + ps''[|ps'|..];
  }

  lemma ProgressExtends(stream: Bytes, done: seq<Bytes>, left: Bytes, more: Bytes)
    requires Progress(stream, done, left)
    ensures Progress(stream + more, done, left + more)
  {
    DecodeSplit(stream, more);
    DecodeSplit(left, more);
    ThenAssociative(Decoded(done, []), Decode(left), Decode(Decode(left).rest + more));
  }

  lemma GainedAll(stream: Bytes, ps: seq<Bytes>, ps': seq<Bytes>, t: Bytes)
    requires Incomplete(t) && Gained(stream, ps, ps', t + [])
    ensures Pulled(ps, Decode(stream), ps', t)
  {
    assert t + [] == t && Decode(t) == Decoded([], t);
    assert ps'[|ps|..] + [] == ps'[|ps|..];
  }

  /** One call of the slicer takes one step of the one-shot decoder. */
  lemma SlicedStep(t: Bytes, u: Bytes, t': Bytes, u': Bytes, ms: seq<Bytes>, invalidHeader: bool, more: Bytes)
    requires Incomplete(t) && Sliced(t, u, t', u', ms, invalidHeader)
    ensures Progress(t + (u + more), ms, t' + (u' + more))
  {
    var k := Consumed(t, u);
    assert t + (u + more) == t + u[..k] + (u' + more);
    DecodeSplit(t + u[..k], u' + more);
  }
}
