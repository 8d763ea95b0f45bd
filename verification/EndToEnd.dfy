/** Delivery from the sending threads of one socket to the reader of its peer: the send
    queue, an in-order byte channel (section 2.2 of RFC 9293) that hands the written bytes
    over in chunks of any size, and the slicer. */
module EndToEnd {
  import opened Runs
  import opened Framing
  import opened Slicer
  import SendQueue
  import TcpSocket

  datatype Link = Link(
    sender: SendQueue.Sender,
    arrived: Bytes,           // handed to the receiving slicer so far
    tail: Bytes,              // its partial message
    ready: seq<Bytes>,        // decoded, not yet given out
    delivered: seq<Bytes>)    // given out by receive

  datatype Label =
    | Sending(step: SendQueue.Label)
    | Arrive(count: nat)
    | Deliver

  function Init(limit: nat): Link {
    Link(SendQueue.Init(limit), [], [], [], [])
  }

  function Next(s: Link, l: Label): Option<Link> {
    match l
    case Sending(step) =>
      var r := SendQueue.Next(s.sender, step);
      if r.Some? then Some(s.(sender := r.value)) else None
    case Arrive(n) =>
      if 0 < n <= MAX_SIZE && |s.arrived| + n <= |s.sender.wire| then
        Some(Arrived(s, s.sender.wire[|s.arrived|..|s.arrived| + n]))
      else None
    case Deliver =>
      if s.ready != [] then Some(s.(delivered := s.delivered + [s.ready[0]], ready := s.ready[1..])) else None
  }

  function Arrived(s: Link, chunk: Bytes): Link {
    var d := Decode(s.tail + chunk);
    s.(arrived := s.arrived + chunk, tail := d.rest, ready := s.ready + d.messages)
  }

  /** What arrived was written, and decodes to what was given out, what is ready and the tail. */
  ghost predicate Receiving(s: Link) {
    && s.arrived <= s.sender.wire
    && Decode(s.arrived) == Decoded(s.delivered + s.ready, s.tail)
  }

  ghost predicate Inv(s: Link) {
    SendQueue.Inv(s.sender) && Receiving(s)
  }

  lemma WireGrows(s: SendQueue.Sender, l: SendQueue.Label, r: SendQueue.Sender)
    requires SendQueue.Next(s, l) == Some(r)
    ensures s.wire <= r.wire
  {
  }

  lemma ArrivedDecodes(s: Link, chunk: Bytes, r: Link)
    requires Decode(s.arrived) == Decoded(s.delivered + s.ready, s.tail)
    requires r == Arrived(s, chunk)
    ensures Decode(r.arrived) == Decoded(r.delivered + r.ready, r.tail)
  {
    var d := Decode(s.tail + chunk);
    DecodeJoin(s.arrived, chunk, s.delivered + s.ready, s.tail, d.messages, d.rest);
    Regroup(s.delivered, s.ready, d.messages);
  }

  lemma NextChunk(arrived: Bytes, wire: Bytes, n: nat)
    requires arrived <= wire && |arrived| + n <= |wire|
    ensures arrived + wire[|arrived|..|arrived| + n] <= wire
  {
  }

  lemma ArriveReceives(s: Link, n: nat, r: Link)
    requires Receiving(s) && |s.arrived| + n <= |s.sender.wire|
    requires r == Arrived(s, s.sender.wire[|s.arrived|..|s.arrived| + n])
    ensures Receiving(r)
  {
    ArrivedDecodes(s, s.sender.wire[|s.arrived|..|s.arrived| + n], r);
    NextChunk(s.arrived, s.sender.wire, n);
  }

  lemma StepReceives(s: Link, l: Label, r: Link)
    requires Receiving(s) && Next(s, l) == Some(r)
    ensures Receiving(r)
    ensures if l.Sending? then SendQueue.Next(s.sender, l.step) == Some(r.sender) else r.sender == s.sender
  {
    match l
    case Sending(step) =>
      WireGrows(s.sender, step, r.sender);
    case Arrive(n) =>
      ArriveReceives(s, n, r);
    case Deliver =>
      assert s.delivered + s.ready == r.delivered + r.ready;
  }

  lemma StepKeepsInv(s: Link, l: Label, r: Link)
    requires Inv(s) && Next(s, l) == Some(r)
    ensures Inv(r)
  {
    StepReceives(s, l, r);
    if l.Sending? {
      SendQueue.StepKeepsInv(s.sender, l.step, r.sender);
    }
  }

  /** Nothing is left between the accepted payloads and the reader. */
  predicate Drained(s: Link) {
    s.sender.queue == [] && s.sender.current.None? && s.arrived == s.sender.wire && s.ready == []
  }

  /** What has been given out is a prefix of what was accepted, and all of it once drained. */
  lemma DeliveredIsPrefix(s: Link)
    requires Inv(s)
    ensures s.delivered <= s.sender.accepted
    ensures Drained(s) ==> s.delivered == s.sender.accepted && s.tail == []
  {
    var all := Frames(s.sender.accepted);
    var unsent := SendQueue.UnsentBytes(s.sender.current) + SendQueue.QueueBytes(s.sender.queue);
    assert s.sender.wire + unsent == all;
    assert s.arrived <= all;
    PrefixDecodesToPrefix(s.sender.accepted, s.arrived);
    assert s.delivered <= s.delivered + s.ready;
    assert Drained(s) ==> unsent == [];
  }

  /** End-to-end delivery over every interleaving of senders, every partial write, every
      close and every chunking on the way to the reader. */
  lemma EndToEndDelivery(limit: nat, steps: seq<Label>)
    ensures var r := Run(Next, Init(limit), steps);
            r.Some? ==>
              && r.value.delivered <= r.value.sender.accepted
              && (Drained(r.value) ==> r.value.delivered == r.value.sender.accepted)
  {
    var r := Run(Next, Init(limit), steps);
    if r.Some? {
      RunKeepsInv(Init(limit), steps, r.value);
      DeliveredIsPrefix(r.value);
    }
  }

  // ---------------------------------------------------------------- that everything can arrive

  function Sent(steps: seq<SendQueue.Label>): (r: seq<Label>)
    ensures |r| == |steps|
  {
    seq(|steps|, i requires 0 <= i < |steps| => Sending(steps[i]))
  }

  /** Every run of the send queue is one of the link. */
  lemma {:induction false} SenderRuns(s: Link, steps: seq<SendQueue.Label>, r: SendQueue.Sender)
    requires Leads(SendQueue.Next, s.sender, steps, r)
    ensures Leads(Next, s, Sent(steps), s.(sender := r))
    decreases |steps|
  {
    if steps != [] {
      var q := s.(sender := SendQueue.Next(s.sender, steps[0]).value);
      SenderRuns(q, steps[1..], r);
      LeadsOne(Next, s, Sending(steps[0]), q);
      LeadsOn(Next, s, [Sending(steps[0])], q, Sent(steps[1..]), s.(sender := r));
      assert Sent(steps) == [Sending(steps[0])] + Sent(steps[1..]);
    }
  }

  /** What is on the wire can arrive. */
  lemma {:induction false} WireArrives(s: Link) returns (steps: seq<Label>, r: Link)
    requires Receiving(s)
    ensures Leads(Next, s, steps, r) && Receiving(r)
    ensures r.sender == s.sender && r.arrived == s.sender.wire && r.delivered == s.delivered
    decreases |s.sender.wire| - |s.arrived|
  {
    steps, r := [], s;
    var left := |s.sender.wire| - |s.arrived|;
    if left > 0 {
      var n := Min(left, MAX_SIZE);
      var q, more := Arrived(s, s.sender.wire[|s.arrived|..|s.arrived| + n]), [];
      ArriveReceives(s, n, q);
      LeadsOne(Next, s, Arrive(n), q);
      more, r := WireArrives(q);
      LeadsOn(Next, s, [Arrive(n)], q, more, r);
      steps := [Arrive(n)] + more;
    }
  }

  /** What has been decoded can be given out. */
  lemma {:induction false} ReadyIsGivenOut(s: Link) returns (steps: seq<Label>, r: Link)
    ensures Leads(Next, s, steps, r) && r == s.(delivered := s.delivered + s.ready, ready := [])
    decreases |s.ready|
  {
    steps, r := [], s;
    if s.ready != [] {
      var q, more := s.(delivered := s.delivered + [s.ready[0]], ready := s.ready[1..]), [];
      LeadsOne(Next, s, Deliver, q);
      more, r := ReadyIsGivenOut(q);
      LeadsOn(Next, s, [Deliver], q, more, r);
      steps := [Deliver] + more;
      assert s.delivered + [s.ready[0]] + s.ready[1..] == s.delivered + s.ready;
    }
  }

  /** From every state of every run in which the sender has nothing left, some continuation
      gives out all that was accepted; the sender gets there when `do_send` ends because
      nothing is left. */
  lemma EverythingCanArrive(s: Link) returns (steps: seq<Label>, r: Link)
    requires Inv(s) && s.sender.queue == [] && s.sender.current.None?
    ensures Leads(Next, s, steps, r) && r.delivered == s.sender.accepted
  {
    var q, more;
    steps, q := WireArrives(s);
    more, r := ReadyIsGivenOut(q);
    LeadsOn(Next, s, steps, q, more, r);
    steps := steps + more;
    RunKeepsInv(s, steps, r);
    DeliveredIsPrefix(r);
  }

  // ---------------------------------------------------------------- the reader as an object

  /** What the script brings up to its next pause arrives, chunk by chunk. */
  lemma {:induction false} ScriptArrives(s: Link, script: seq<TcpSocket.RecvResult>) returns (steps: seq<Label>, r: Link)
    requires Incomplete(s.tail) && s.arrived + TcpSocket.Received(script) <= s.sender.wire
    ensures Leads(Next, s, steps, r) && r == Arrived(s, TcpSocket.Received(script))
    decreases |script|
  {
    if TcpSocket.FirstResult(script).Data? {
      var chunk, rest := script[0].bytes, TcpSocket.Received(script[1..]);
      var n := |chunk|;
      Regroup(s.arrived, chunk, rest);
      assert s.sender.wire[|s.arrived|..|s.arrived| + n] == chunk by {
        assert (s.arrived + chunk + rest)[|s.arrived|..|s.arrived| + n] == chunk;
      }
      var q, more := Arrived(s, chunk), [];
      LeadsOne(Next, s, Arrive(n), q);
      RestIsIncomplete(s.tail + chunk);
      more, r := ScriptArrives(q, script[1..]);
      LeadsOn(Next, s, [Arrive(n)], q, more, r);
      steps := [Arrive(n)] + more;
      ArrivedTwice(s, chunk, rest);
    } else {
      steps, r := [], s;
      ArrivedNothing(s);
    }
  }

  lemma ArrivedNothing(s: Link)
    requires Incomplete(s.tail)
    ensures Arrived(s, []) == s
  {
    assert s.tail + [] == s.tail && s.arrived + [] == s.arrived && s.ready + [] == s.ready;
  }

  lemma ArrivedTwice(s: Link, a: Bytes, b: Bytes)
    ensures Arrived(Arrived(s, a), b) == Arrived(s, a + b)
  {
    var d := Decode(s.tail + a);
    DecodeSplit(s.tail + a, b);
    Regroup(s.tail, a, b);
    Regroup(s.arrived, a, b);
    Regroup(s.ready, d.messages, Decode(d.rest + b).messages);
  }

  /** The socket object holds what the link has at the reader. */
  ghost predicate Shows(socket: TcpSocket.TcpSocket, s: Link)
    requires socket.Valid()
    reads socket, socket.slicer, socket.slicer.buffer
  {
    socket.slicer.buffer.size == 0 && socket.slicer.Tail() == s.tail && socket.slicer.Payloads() == s.ready
  }

  /** A call of `receive` when the kernel hands over the next bytes of the channel, in any
      chunks and with any ending: it is a run of the link, so what the calls give out is, in
      order, what the sending threads had accepted. */
  method ReceiveFromLink(socket: TcpSocket.TcpSocket, ghost s: Link)
      returns (message: Option<Bytes>, threw: bool, ghost steps: seq<Label>, ghost r: Link)
    requires socket.Valid() && Shows(socket, s) && s.arrived + socket.Pending() <= s.sender.wire
    modifies socket`state, socket`fd, socket`notifications, socket.slicer, socket.slicer.buffer,
             socket.slicer.buffer.data, socket.kernel`incoming
    ensures socket.Valid() && Shows(socket, r) && Leads(Next, s, steps, r)
    ensures r.arrived == s.arrived + old(socket.Pending()) && r.sender == s.sender
    ensures r.delivered == s.delivered + One(message)
    ensures Inv(s) ==> Inv(r) && r.delivered <= s.sender.accepted
  {
    ghost var pending := socket.Pending();
    ghost var script := if socket.IsValid() then socket.kernel.incoming else [];
    assert pending == TcpSocket.Received(script);
    ghost var q;
    steps, q := ScriptArrives(s, script);
    message, threw := socket.Receive();
    r := q.(ready := socket.slicer.Payloads(), delivered := s.delivered + One(message));
    TakesFirst(q, message, socket.slicer.Payloads());
    if message.Some? {
      LeadsOneMore(Next, s, steps, q, Deliver, r);
      steps := steps + [Deliver];
    }
    if Inv(s) {
      RunKeepsInv(s, steps, r);
      DeliveredIsPrefix(r);
    }
  }

  /** Giving out the first message is a step, giving out none is no step. */
  lemma TakesFirst(s: Link, message: Option<Bytes>, left: seq<Bytes>)
    requires s.ready == One(message) + left
    ensures var r := s.(ready := left, delivered := s.delivered + One(message));
            if message.Some? then Next(s, Deliver) == Some(r) else r == s
  {
    assert message.Some? ==> s.ready[0] == message.value && s.ready[1..] == left;
    assert message.None? ==> s.ready == left && s.delivered + [] == s.delivered;
  }

  lemma RunKeepsInv(s: Link, steps: seq<Label>, r: Link)
    requires Inv(s) && Leads(Next, s, steps, r)
    ensures Inv(r)
  {
    forall s, l | Inv(s) && Next(s, l).Some? ensures Inv(Next(s, l).value) {
      StepKeepsInv(s, l, Next(s, l).value);
    }
    InvariantAlongRun(Next, Inv, s, steps);
  }
}
