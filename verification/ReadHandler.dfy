/** The read side of a connection's listener: messages go to the application, and the
    disconnect callback comes after the last of them. */
module ReadHandler {
  import opened Runs
  import opened Framing
  import opened Slicer
  import opened SocketState
  import opened TcpSocket

  datatype SocketType = Acceptor | Connection

  /** What the application and the event loop get to see, in order. */
  datatype Event = Message(payload: Bytes) | Disconnect | Unregister

  function Messages(payloads: seq<Bytes>): seq<Event> {
    seq(|payloads|, i requires 0 <= i < |payloads| => Message(payloads[i]))
  }

  /** All bytes a stretch of the receive script brings. */
  function AllData(script: seq<RecvResult>): Bytes {
    if script == [] then []
    else (if script[0].Data? then script[0].bytes else []) + AllData(script[1..])
  }

  /** How often it interrupts the stream. */
  function Pauses(script: seq<RecvResult>): nat {
    if script == [] then 0
    else (if script[0].Data? then 0 else 1) + Pauses(script[1..])
  }

  lemma {:induction false} AllDataAppend(a: seq<RecvResult>, b: seq<RecvResult>)
    ensures AllData(a + b) == AllData(a) + AllData(b)
    ensures Pauses(a + b) == Pauses(a) + Pauses(b)
    decreases |a|
  {
    if a == [] {
      assert a + b == b;
    } else {
      assert (a + b)[1..] == a[1..] + b;
      AllDataAppend(a[1..], b);
    }
  }

  predicate OnlyData(script: seq<RecvResult>) {
    forall i :: 0 <= i < |script| ==> script[i].Data?
  }

  predicate EndsInPause(script: seq<RecvResult>, pause: RecvResult) {
    script != [] && OnlyData(script[..|script| - 1]) && script[|script| - 1] == pause && !pause.Data?
  }

  /** The part of the script up to the next pause, and what it brings. */
  lemma {:induction false} UpToPause(script: seq<RecvResult>) returns (used: seq<RecvResult>)
    ensures script == used + Later(script)
    ensures AllData(used) == Received(script)
    ensures Ending(script).ReceiveFailed? <==> ReceiveFailed in used
    ensures |Later(script)| < |script| || script == []
    ensures EndsInPause(used, Ending(script)) || (Later(script) == [] && OnlyData(used) && Ending(script).Again?)
    decreases |script|
  {
    if script == [] {
      used := [];
    } else if script[0].Data? {
      var rest := UpToPause(script[1..]);
      used := [script[0]] + rest;
      assert used[1..] == rest;
      assert rest != [] ==> used[..|used| - 1] == [script[0]] + rest[..|rest| - 1];
    } else {
      used := [script[0]];
      assert used[1..] == [];
    }
  }

  /** What a pull takes from the script, none of it if the socket is closed. */
  lemma Used(t: Bytes, u: Bytes, script: seq<RecvResult>, valid: bool) returns (used: seq<RecvResult>)
    requires Incomplete(t)
    ensures t + (u + if valid then Received(script) else []) == t + u + AllData(used)
    ensures script == used + if valid then Later(script) else script
    ensures ReceiveFailed in used <==> valid && Ending(script).ReceiveFailed?
    ensures PullTook(valid, valid && !Closes(Ending(script)), used, if valid then Later(script) else script)
    ensures used == [] && u == [] ==> Decode(t + u + AllData(used)) == Decoded([], t)
  {
    if valid {
      used := UpToPause(script);
      assert t + (u + Received(script)) == t + u + AllData(used);
    } else {
      used := [];
      assert t + (u + []) == t + u + AllData(used);
    }
    assert used == [] && u == [] ==> t + u + AllData(used) == t;
  }

  /** One pull took `used` and left `rest` of the script: up to the next pause, which closes
      the socket unless it is EAGAIN, or all there was, or nothing from a closed socket. */
  ghost predicate PullTook(valid: bool, valid': bool, used: seq<RecvResult>, rest: seq<RecvResult>) {
    if !valid then !valid' && used == []
    else
      || (EndsInPause(used, Again) && valid')
      || (exists e :: EndsInPause(used, e) && Closes(e) && !valid')
      || (OnlyData(used) && rest == [] && valid')
  }

  class NetworkSocketListener {
    const socket: TcpSocket
    const socketType: SocketType
    var hasDisconnected: bool
    var log: seq<Event>

    constructor (socket: TcpSocket, socketType: SocketType)
      ensures this.socket == socket && this.socketType == socketType && !hasDisconnected && log == []
    {
      this.socket, this.socketType := socket, socketType;
      hasDisconnected, log := false, [];
    }

    /** Closes the socket if need be; once it is closed, tells the application and leaves
        the event loop, the first time only. */
    method CloseSocketInternal(result: ShutdownResult)
      requires socket.Valid()
      modifies this, socket`state, socket`fd, socket`notifications, socket.slicer.buffer
      ensures socket.Valid() && socket.slicer.Payloads() == old(socket.slicer.Payloads())
      ensures socket.slicer.Tail() == old(socket.slicer.Tail())
      ensures socket.Sock() == (if old(socket.IsValid()) then old(socket.Sock()).Close(false, result)
                                else old(socket.Sock()))
      ensures hasDisconnected == (old(hasDisconnected) || !socket.IsValid())
      ensures log == old(log) + if hasDisconnected && !old(hasDisconnected)
                                then (if socketType.Connection? then [Disconnect] else []) + [Unregister]
                                else []
    {
      var done := true;
      if socket.IsValid() {
        done := socket.Close(false, result);
      }
      if done && !hasDisconnected {
        hasDisconnected := true;
        if socketType == Connection {
          log := log + [Disconnect];
        }
        log := log + [Unregister];
      }
    }

    /** Receives once; `used` is the part of the script that took. */
    method NextMessage() returns (message: Option<Bytes>, threw: bool, ghost used: seq<RecvResult>)
      requires socket.Valid()
      modifies socket`state, socket`fd, socket`notifications, socket.slicer, socket.slicer.buffer,
               socket.slicer.buffer.data, socket.kernel`incoming
      ensures socket.Valid() && socket.slicer.buffer.size == 0
      ensures old(socket.kernel.incoming) == used + socket.kernel.incoming
      ensures GivenOut(old(socket.slicer.Payloads()), Decode(old(Undecoded()) + AllData(used)),
                       message, socket.slicer.Payloads(), socket.slicer.Tail())
      ensures message.None? ==> threw || socket.slicer.Payloads() == []
      ensures threw ==> message.None?
      ensures threw <==> ReceiveFailed in used
      ensures PullTook(old(socket.IsValid()), socket.IsValid(), used, socket.kernel.incoming)
      ensures old(socket.IsValid()) && Ending(old(socket.kernel.incoming)).ReceiveFailed? ==>
                threw && socket.kernel.incoming == Later(old(socket.kernel.incoming)) && !socket.IsValid()
      ensures message.Some? && used == [] && old(socket.slicer.buffer.size) == 0 ==>
                |socket.slicer.Payloads()| < |old(socket.slicer.Payloads())|
    {
      ghost var script, valid, u := socket.kernel.incoming, socket.IsValid(), socket.slicer.buffer.Unread();
      ghost var t := socket.slicer.Tail();
      message, threw := socket.Receive();
      used := Used(t, u, script, valid);
    }

    /** What the slicer still has to decode before it needs new data. */
    ghost function Undecoded(): Bytes
      requires socket.Valid()
      reads this, socket, socket.slicer, socket.slicer.buffer, socket.slicer.buffer.data
    {
      socket.slicer.Tail() + socket.slicer.buffer.Unread()
    }

    /** One turn of the loop: receive, and pass a message on if there is one. */
    method DeliverOne(ghost ps0: seq<Bytes>, ghost stream: Bytes, ghost decoded: seq<Bytes>, ghost delivered: seq<Bytes>)
      returns (message: Option<Bytes>, threw: bool, ghost used: seq<RecvResult>, ghost decoded': seq<Bytes>)
      requires socket.Valid()
      requires Round(ps0, stream, decoded, Undecoded(), delivered, socket.slicer.Payloads())
      modifies `log, socket`state, socket`fd, socket`notifications, socket.slicer, socket.slicer.buffer,
               socket.slicer.buffer.data, socket.kernel`incoming
      ensures socket.Valid() && socket.slicer.buffer.size == 0
      ensures old(socket.kernel.incoming) == used + socket.kernel.incoming
      ensures log == old(log) + Messages(One(message))
      ensures Round(ps0, stream + AllData(used), decoded', Undecoded(), delivered + One(message), socket.slicer.Payloads())
      ensures message.None? ==> threw || socket.slicer.Payloads() == []
      ensures threw ==> message.None?
      ensures threw <==> ReceiveFailed in used
      ensures PullTook(old(socket.IsValid()), socket.IsValid(), used, socket.kernel.incoming)
      ensures old(socket.IsValid()) && Ending(old(socket.kernel.incoming)).ReceiveFailed? ==>
                threw && socket.kernel.incoming == Later(old(socket.kernel.incoming)) && !socket.IsValid()
      ensures message.Some? && used == [] && old(socket.slicer.buffer.size) == 0 ==>
                |socket.slicer.Payloads()| < |old(socket.slicer.Payloads())|
    {
      ghost var left, ps := Undecoded(), socket.slicer.Payloads();
      message, threw, used := NextMessage();
      NextRound(ps0, stream, decoded, left, delivered, ps,
                AllData(used), message, socket.slicer.Payloads(), socket.slicer.Tail());
      decoded' := decoded + Decode(left + AllData(used)).messages;
      if message.Some? {
        log := log + [Message(message.value)];
      }
    }

    /** The loop of `OnReadReady`. */
    method DeliverAll() returns (threw: bool, ghost used: seq<RecvResult>, ghost delivered: seq<Bytes>)
      requires socket.Valid()
      modifies `log, socket`state, socket`fd, socket`notifications, socket.slicer, socket.slicer.buffer,
               socket.slicer.buffer.data, socket.kernel`incoming
      ensures socket.Valid()
      ensures old(socket.kernel.incoming) == used + socket.kernel.incoming
      ensures Handed(old(socket.slicer.Payloads()), Decode(old(Undecoded()) + AllData(used)),
                     delivered, socket.slicer.Payloads(), socket.slicer.Tail())
      ensures log == old(log) + Messages(delivered)
      ensures !threw ==> socket.slicer.Payloads() == []
      ensures threw <==> ReceiveFailed in used
      ensures threw ==> Pauses(used) == |delivered| + 1
      ensures socket.slicer.Payloads() != [] <==>
                old(socket.IsValid())
                && LeavesBehind(old(socket.slicer.Payloads()), old(Undecoded()), old(socket.kernel.incoming))
      ensures old(socket.IsValid()) && Ending(old(socket.kernel.incoming)).ReceiveFailed? ==>
                delivered == [] && socket.kernel.incoming == Later(old(socket.kernel.incoming)) && !socket.IsValid()
    {
      used, delivered := [], [];
      ghost var doomed := socket.IsValid() && Ending(socket.kernel.incoming).ReceiveFailed?;
      ghost var ps0, stream, decoded := socket.slicer.Payloads(), Undecoded(), [];
      ghost var script, valid0 := socket.kernel.incoming, socket.IsValid();
      ghost var live := valid0;
      FirstRound(ps0, stream);
      while true
        invariant socket.Valid()
        invariant old(socket.kernel.incoming) == used + socket.kernel.incoming
        invariant log == old(log) + Messages(delivered) && ReceiveFailed !in used
        invariant Track(live, valid0, ps0, stream, script, used, |delivered|, socket.IsValid(), socket.kernel.incoming)
        invariant doomed ==> delivered == [] && socket.IsValid() && socket.kernel.incoming == old(socket.kernel.incoming)
        invariant Round(ps0, stream + AllData(used), decoded, Undecoded(), delivered, socket.slicer.Payloads())
        decreases |socket.kernel.incoming|, socket.slicer.buffer.size, |socket.slicer.Payloads()|
      {
        ghost var more, valid, rest := [], socket.IsValid(), socket.kernel.incoming;
        var message;
        message, threw, more, decoded := DeliverOne(ps0, stream + AllData(used), decoded, delivered);
        StreamGrows(stream, used, more, socket.kernel.incoming);
        MessagesAppend(old(log), delivered, message);
        LastRound(ps0, stream + AllData(used + more), decoded, socket.slicer.Tail(),
                  delivered + One(message), socket.slicer.Payloads());
        live := TrackOn(live, valid0, ps0, stream, script, used, |delivered|, valid, rest, more, socket.IsValid(),
                        socket.kernel.incoming, message, |socket.slicer.Payloads()|);
        used := used + more;
        if message.None? {
          break;
        }
        delivered := delivered + One(message);
      }
    }

    /** Hands every message to the application, reading on until nothing is left, and only
        then reports a closed socket.  `used` is the part of the receive script this took.
        Messages stay behind exactly if `LeavesBehind` says so: then one was handed over for
        each pause of the stream before the error, and all others stay. */
    method OnReadReady() returns (threw: bool, ghost used: seq<RecvResult>, ghost delivered: seq<Bytes>)
      requires socket.Valid() && socketType == Connection
      modifies this, socket`state, socket`fd, socket`notifications, socket.slicer, socket.slicer.buffer,
               socket.slicer.buffer.data, socket.kernel`incoming
      ensures socket.Valid()
      ensures old(socket.kernel.incoming) == used + socket.kernel.incoming
      ensures Handed(old(socket.slicer.Payloads()), Decode(old(Undecoded()) + AllData(used)),
                     delivered, socket.slicer.Payloads(), socket.slicer.Tail())
      ensures log == old(log) + Messages(delivered)
                     + if socket.IsValid() || old(hasDisconnected) then [] else [Disconnect, Unregister]
      ensures socket.slicer.Payloads() != [] <==>
                old(socket.IsValid())
                && LeavesBehind(old(socket.slicer.Payloads()), old(Undecoded()), old(socket.kernel.incoming))
      ensures !threw ==> socket.slicer.Payloads() == []
      ensures threw <==> ReceiveFailed in used
      ensures threw ==> Pauses(used) == |delivered| + 1
      ensures old(socket.IsValid()) && Ending(old(socket.kernel.incoming)).ReceiveFailed? ==>
                delivered == [] && socket.kernel.incoming == Later(old(socket.kernel.incoming)) && !socket.IsValid()
    {
      threw, used, delivered := DeliverAll();
      if !socket.IsValid() {
        CloseSocketInternal(ShutdownDone);
      }
    }
  }

  /** How many messages there are, queued or decoded, when `k` results of the script are in. */
  function MessagesBy(ps: seq<Bytes>, left: Bytes, script: seq<RecvResult>, k: nat): nat
    requires k <= |script|
  {
    |ps| + |Decode(left + AllData(script[..k])).messages|
  }

  /** The first `k` results are data or EAGAIN, and at every pause there is a message to hand
      over, so that the handler reads on. */
  predicate ReadsOn(ps: seq<Bytes>, left: Bytes, script: seq<RecvResult>, k: nat)
    requires k <= |script|
  {
    forall i :: 0 <= i < k ==>
      script[i].Data? || (script[i].Again? && Pauses(script[..i + 1]) <= MessagesBy(ps, left, script, i))
  }

  /** The handler reads on up to an unexpected error, and by then there are more messages
      than there were pauses. */
  predicate LeavesBehind(ps: seq<Bytes>, left: Bytes, script: seq<RecvResult>) {
    exists k :: 0 <= k < |script| && StrandsAt(ps, left, script, k)
  }

  predicate StrandsAt(ps: seq<Bytes>, left: Bytes, script: seq<RecvResult>, k: nat)
    requires k < |script|
  {
    script[k].ReceiveFailed? && ReadsOn(ps, left, script, k) && Pauses(script[..k]) < MessagesBy(ps, left, script, k)
  }

  /** A result behind which the handler does not read on, and which is not such an error. */
  lemma NotBeyond(ps: seq<Bytes>, left: Bytes, script: seq<RecvResult>, k: nat)
    requires k < |script| && ReadsOn(ps, left, script, k) && !script[k].Data?
    requires script[k].Again? ==> Pauses(script[..k + 1]) > MessagesBy(ps, left, script, k)
    ensures LeavesBehind(ps, left, script) <==> StrandsAt(ps, left, script, k)
  {
    if LeavesBehind(ps, left, script) {
      var e :| 0 <= e < |script| && StrandsAt(ps, left, script, e);
    }
  }

  lemma {:induction false} OnlyDataHasNoPauses(script: seq<RecvResult>)
    requires OnlyData(script)
    ensures Pauses(script) == 0
    decreases |script|
  {
    if script != [] {
      OnlyDataHasNoPauses(script[1..]);
    }
  }

  lemma PauseBringsNothing(used: seq<RecvResult>, data: seq<RecvResult>, pause: RecvResult)
    requires OnlyData(data) && !pause.Data?
    ensures AllData(used + (data + [pause])) == AllData(used + data)
    ensures Pauses(used + data) == Pauses(used) && Pauses(used + (data + [pause])) == Pauses(used) + 1
  {
    Regroup(used, data, [pause]);
    AllDataAppend(used + data, [pause]);
    AllDataAppend(used, data);
    OnlyDataHasNoPauses(data);
    assert [pause][1..] == [];
    assert AllData(used + data) + AllData([pause]) == AllData(used + data);
  }

  lemma ReadsOnThroughData(ps: seq<Bytes>, left: Bytes, script: seq<RecvResult>, j: nat, k: nat)
    requires j <= k <= |script| && ReadsOn(ps, left, script, j) && OnlyData(script[j..k])
    ensures ReadsOn(ps, left, script, k)
  {
    forall i | j <= i < k ensures script[i].Data? {
      assert script[i] == script[j..k][i - j];
    }
  }

  lemma ReadsOnPast(ps: seq<Bytes>, left: Bytes, script: seq<RecvResult>, k: nat)
    requires k < |script| && ReadsOn(ps, left, script, k)
    requires script[k].Again? && Pauses(script[..k + 1]) <= MessagesBy(ps, left, script, k)
    ensures ReadsOn(ps, left, script, k + 1)
  {
  }

  /** At the pause that ends a pull. */
  lemma AtPause(ps: seq<Bytes>, left: Bytes, script: seq<RecvResult>, used: seq<RecvResult>,
                more: seq<RecvResult>, rest: seq<RecvResult>, pause: RecvResult)
    requires script == used + more + rest && EndsInPause(more, pause) && ReadsOn(ps, left, script, |used|)
    ensures var k := |used + more| - 1;
            && script[k] == pause && ReadsOn(ps, left, script, k)
            && Pauses(script[..k]) == Pauses(used) && Pauses(script[..k + 1]) == Pauses(used) + 1 == Pauses(used + more)
            && MessagesBy(ps, left, script, k) == |ps| + |Decode(left + AllData(used + more)).messages|
  {
    var k, data := |used + more| - 1, more[..|more| - 1];
    assert script[..k] == used + data && script[..k + 1] == used + more;
    assert more == data + [pause] && script[|used|..k] == data;
    PauseBringsNothing(used, data, pause);
    ReadsOnThroughData(ps, left, script, |used|, k);
  }

  /** While `live`, the handler has read on so far, delivering one message for each pause;
      otherwise it is known that nothing stays behind, and no error can come any more. */
  ghost predicate Track(live: bool, valid0: bool, ps: seq<Bytes>, left: Bytes, script: seq<RecvResult>,
                        used: seq<RecvResult>, n: nat, valid: bool, rest: seq<RecvResult>)
  {
    if live then valid0 && valid && |used| <= |script| && ReadsOn(ps, left, script, |used|) && Pauses(used) == n
    else !(valid0 && LeavesBehind(ps, left, script)) && (valid ==> rest == [])
  }

  /** One turn of the loop, after which `m` messages are queued. */
  lemma TrackOn(live: bool, valid0: bool, ps: seq<Bytes>, left: Bytes, script: seq<RecvResult>,
                used: seq<RecvResult>, n: nat, valid: bool, before: seq<RecvResult>, more: seq<RecvResult>,
                valid': bool, rest: seq<RecvResult>, message: Option<Bytes>, m: nat) returns (live': bool)
    requires Track(live, valid0, ps, left, script, used, n, valid, before)
    requires before == more + rest && script == used + more + rest && PullTook(valid, valid', more, rest)
    requires |ps| + |Decode(left + AllData(used + more)).messages| == n + |One(message)| + m
    requires ReceiveFailed in more ==> message.None?
    requires message.None? && ReceiveFailed !in more ==> m == 0
    ensures message.Some? ==> Track(live', valid0, ps, left, script, used + more, n + 1, valid', rest)
    ensures message.None? ==> (m > 0 <==> valid0 && LeavesBehind(ps, left, script))
    ensures ReceiveFailed in more ==> Pauses(used + more) == n + 1
  {
    live' := live && valid' && message.Some? && EndsInPause(more, Again);
    if live {
      if OnlyData(more) && rest == [] {
        NoErrorNothingLeft(ps, left, script, used, more);
      } else if EndsInPause(more, Again) {
        TrackAgain(ps, left, script, used, n, more, rest, message, m);
      } else {
        var e :| EndsInPause(more, e) && Closes(e);
        TrackClosed(ps, left, script, used, n, more, rest, e);
      }
    }
  }

  /** Behind EAGAIN the handler reads on if it had a message to hand over. */
  lemma TrackAgain(ps: seq<Bytes>, left: Bytes, script: seq<RecvResult>, used: seq<RecvResult>, n: nat,
                   more: seq<RecvResult>, rest: seq<RecvResult>, message: Option<Bytes>, m: nat)
    requires script == used + more + rest && EndsInPause(more, Again)
    requires ReadsOn(ps, left, script, |used|) && Pauses(used) == n
    requires |ps| + |Decode(left + AllData(used + more)).messages| == n + |One(message)| + m
    requires message.None? ==> m == 0
    ensures ReceiveFailed !in more
    ensures message.Some? ==> ReadsOn(ps, left, script, |used + more|) && Pauses(used + more) == n + 1
    ensures message.None? ==> !LeavesBehind(ps, left, script)
  {
    var k := |used + more| - 1;
    AtPause(ps, left, script, used, more, rest, Again);
    FailedInPause(more, Again);
    if message.None? {
      NotBeyond(ps, left, script, k);
    } else {
      ReadsOnPast(ps, left, script, k);
    }
  }

  /** A pause that closes the socket is the last. */
  lemma TrackClosed(ps: seq<Bytes>, left: Bytes, script: seq<RecvResult>, used: seq<RecvResult>, n: nat,
                    more: seq<RecvResult>, rest: seq<RecvResult>, e: RecvResult)
    requires script == used + more + rest && EndsInPause(more, e) && Closes(e)
    requires ReadsOn(ps, left, script, |used|) && Pauses(used) == n
    ensures Pauses(used + more) == n + 1
    ensures ReceiveFailed in more <==> e == ReceiveFailed
    ensures LeavesBehind(ps, left, script)
            <==> e == ReceiveFailed && n < |ps| + |Decode(left + AllData(used + more)).messages|
  {
    AtPause(ps, left, script, used, more, rest, e);
    FailedInPause(more, e);
    NotBeyond(ps, left, script, |used + more| - 1);
  }

  lemma FailedInPause(more: seq<RecvResult>, e: RecvResult)
    requires EndsInPause(more, e)
    ensures ReceiveFailed in more <==> e == ReceiveFailed
  {
    assert forall i :: 0 <= i < |more| - 1 ==> more[i] == more[..|more| - 1][i];
  }

  lemma NoErrorNothingLeft(ps: seq<Bytes>, left: Bytes, script: seq<RecvResult>,
                           used: seq<RecvResult>, more: seq<RecvResult>)
    requires script == used + more && OnlyData(more) && ReadsOn(ps, left, script, |used|)
    ensures !LeavesBehind(ps, left, script) && ReceiveFailed !in more
  {
    forall k | 0 <= k < |script| ensures !script[k].ReceiveFailed? {
      if k >= |used| {
        assert script[k] == more[k - |used|];
      }
    }
  }

  /** The exception is real: a frame followed by an unexpected error in the same pull is
      decoded, the application is told of the disconnect, and the message stays behind. */
  method ErrorLeavesMessageBehind(payload: Bytes) returns (listener: NetworkSocketListener)
    requires Sendable(payload) && |payload| + HEADER_SIZE <= MAX_SIZE
    ensures listener.log == [Disconnect, Unregister]
    ensures listener.socket.Valid() && listener.socket.slicer.Payloads() == [payload]
  {
    var frame := Frame(payload);
    var kernel := new Kernel([Data(frame), ReceiveFailed], []);
    var socket := new TcpSocket.Accepted(kernel, 1, 0);
    listener := new NetworkSocketListener(socket, Connection);
    FrameThenError(payload);
    assert listener.Undecoded() == [];
    var threw, used, delivered := listener.OnReadReady();
    assert used == [Data(frame), ReceiveFailed];
    assert Messages([]) == [] && [] + [payload] == [payload];
  }

  lemma FrameThenError(payload: Bytes)
    requires Sendable(payload) && |payload| + HEADER_SIZE <= MAX_SIZE
    ensures var script := [Data(Frame(payload)), ReceiveFailed];
            && Ending(script) == ReceiveFailed && Later(script) == []
            && Decode([] + AllData(script)) == Decoded([payload], [])
  {
    var script := [Data(Frame(payload)), ReceiveFailed];
    assert script[1..] == [ReceiveFailed] && script[1..][1..] == [];
    assert AllData(script[1..]) == [] + AllData([]);
    assert AllData(script) == Frame(payload) + [];
    assert [payload][1..] == [] && Frames([payload]) == Frame(payload) + Frames([]);
    assert [] + AllData(script) == Frames([payload]);
    RoundTrip([payload]);
  }

  /** Of the queued messages `ps` and the decoded ones, `delivered` have been given out and
      `left` are queued. */
  ghost predicate Handed(ps: seq<Bytes>, d: Decoded, delivered: seq<Bytes>, left: seq<Bytes>, tail: Bytes) {
    ps + d.messages == delivered + left && tail == d.rest
  }

  /** Between two receives: `decoded` came out of `stream`, `left` is still to be decoded,
      and the messages so far are those delivered and those queued. */
  ghost predicate Round(ps0: seq<Bytes>, stream: Bytes, decoded: seq<Bytes>, left: Bytes,
                        delivered: seq<Bytes>, ps: seq<Bytes>)
  {
    Progress(stream, decoded, left) && ps0 + decoded == delivered + ps
  }

  lemma FirstRound(ps: seq<Bytes>, stream: Bytes)
    ensures Round(ps, stream + AllData([]), [], stream, [], ps)
  {
    assert stream + AllData([]) == stream;
    ProgressStarts(stream);
    assert ps + [] == [] + ps;
  }

  lemma NextRound(ps0: seq<Bytes>, stream: Bytes, decoded: seq<Bytes>, left: Bytes, delivered: seq<Bytes>,
                  ps: seq<Bytes>, more: Bytes, message: Option<Bytes>, ps': seq<Bytes>, t': Bytes)
    requires Round(ps0, stream, decoded, left, delivered, ps)
    requires GivenOut(ps, Decode(left + more), message, ps', t')
    ensures Round(ps0, stream + more, decoded + Decode(left + more).messages, t' + [],
                  delivered + One(message), ps')
  {
    var n, m := Decode(left + more).messages, One(message);
    ProgressExtends(stream, decoded, left, more);
    RestDecodes(left + more);
    ProgressContinues(stream + more, decoded, left + more, n, t' + []);
    Regroup(ps0, decoded, n);
    Regroup(delivered, ps, n);
    Regroup(delivered, m, ps');
  }

  lemma RestDecodes(b: Bytes)
    ensures Progress(b, Decode(b).messages, Decode(b).rest + [])
  {
    RestIsIncomplete(b);
    var r := Decode(b).rest;
    assert r + [] == r && Decode(r) == Decoded([], r);
    assert Decode(b).messages + [] == Decode(b).messages;
  }

  lemma StreamGrows(stream: Bytes, used: seq<RecvResult>, more: seq<RecvResult>, rest: seq<RecvResult>)
    ensures stream + AllData(used + more) == stream + AllData(used) + AllData(more)
    ensures used + (more + rest) == used + more + rest
    ensures Pauses(used + more) == Pauses(used) + Pauses(more)
  {
    AllDataAppend(used, more);
  }

  lemma MessagesAppend(log: seq<Event>, delivered: seq<Bytes>, message: Option<Bytes>)
    ensures log + Messages(delivered) + Messages(One(message)) == log + Messages(delivered + One(message))
    ensures message.None? ==> delivered + One(message) == delivered
  {
    assert Messages(delivered) + Messages(One(message)) == Messages(delivered + One(message));
  }

  lemma LastRound(ps0: seq<Bytes>, stream: Bytes, decoded: seq<Bytes>, t: Bytes, delivered: seq<Bytes>, ps: seq<Bytes>)
    requires Incomplete(t) && Round(ps0, stream, decoded, t + [], delivered, ps)
    ensures Handed(ps0, Decode(stream), delivered, ps, t)
  {
    assert t + [] == t && decoded + [] == decoded;
    assert Decode(t) == Decoded([], t);
  }
}
