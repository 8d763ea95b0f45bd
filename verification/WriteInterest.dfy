/** A connection's listener and its epoll registration: the mode decides whether the
    kernel reports writability, and has to follow what is left to send.  Senders, workers
    and closers interleave between the critical sections of the listener's send mutex. */
module WriteInterest {
  import opened Runs

  datatype Mode = ReadOnly | ReadWrite

  datatype Interest = Interest(read: bool, write: bool)

  function Flags(mode: Mode): Interest {
    if mode.ReadOnly? then Interest(true, false) else Interest(true, true)
  }

  datatype Sock = Connected | Shutdown | Closed

  type Tid = nat

  datatype Event = Read | Write | ReadAndWrite | Error

  /** A call of `send`; `enq` counts how often its message has been enqueued. */
  datatype Call = Call(length: nat, blocking: bool, async: bool, enq: nat)

  /** Where a thread is. */
  datatype Pc =
    | Idle
    // NetworkSocketListener::send
    | SendLock(call: Call)
    | SendTry(call: Call)                 // has the mutex
    | SendBlocked(call: Call)             // waits for the queue, without the mutex
    | SendClose(enq: nat)                 // has the mutex, in an exception handler
    | SendCheck(hasMore: bool, enq: nat)  // has the mutex, about to test is_valid
    | SendSet(mode: Mode, enq: nat)       // has the mutex, about to set the mode
    | SendGone(enq: nat)                  // has the mutex, about to close
    // a worker handling an event
    | OnRead(thenWrite: bool)
    | OnReadClose(thenWrite: bool)
    | OnWrite
    | WriteTry                            // has the mutex
    | WriteCheck(hasMore: bool)           // has the mutex
    | WriteSet                            // has the mutex
    | WriteFailed                         // has let go of the mutex
    | WriteClosed                         // about to test is_valid without the mutex
    | OnError
    | ReRegister

  predicate Holds(pc: Pc) {
    || pc.SendTry? || pc.SendClose? || pc.SendCheck? || pc.SendSet? || pc.SendGone?
    || pc.WriteTry? || pc.WriteCheck? || pc.WriteSet?
  }

  predicate Handles(pc: Pc) {
    || pc.OnRead? || pc.OnReadClose? || pc.OnWrite? || pc.WriteTry? || pc.WriteCheck? || pc.WriteSet?
    || pc.WriteFailed? || pc.WriteClosed? || pc.OnError? || pc.ReRegister?
  }

  /** The fields of the listener and its socket, and what epoll knows of them. */
  datatype Core = Core(
    limit: nat,
    sock: Sock,
    queued: nat,                // m_send_queue_size
    inFlight: nat,              // unsent bytes of the current message
    mode: Mode,
    inTable: bool,
    adding: bool,               // entered into the table, not yet added to epoll
    interest: Option<Interest>, // what epoll watches for
    armed: bool)                // the one-shot registration can deliver an event
  {
    predicate IsValid() { !sock.Closed? }

    predicate Pending() { queued + inFlight > 0 }

    /** The descriptor is closed; epoll forgets it. */
    function Drop(): Core {
      this.(sock := Closed, interest := None, armed := false)
    }

    /** `close_socket` as one step; once the socket is closed the listener leaves the table. */
    function CloseSocket(lost: bool): Core {
      if sock.Connected? && !lost then this.(sock := Shutdown)
      else Drop().(inTable := false)
    }

    /** An epoll modification with the flags of mode `m`, which also re-arms. */
    function Modify(m: Mode): Core {
      if inTable && interest.Some? then this.(interest := Some(Flags(m)), armed := true) else this
    }

    function SetMode(m: Mode): Core {
      if m == mode then this else this.(mode := m).Modify(m)
    }
  }

  /** What `do_send` comes to: bytes left and true; nothing left and false; closed with bytes
      left, and false or an exception.  `SendOutcome` proves that these are its endings. */
  datatype Outcome =
    | More(queued: nat, inFlight: nat)
    | Drained
    | Died(queued: nat, inFlight: nat)
    | Threw(queued: nat, inFlight: nat)

  /** Bytes may have gone out, but some of a message are left. */
  predicate Leaves(c: Core, queued: nat, inFlight: nat) {
    0 < inFlight && queued <= c.queued && queued + inFlight <= c.queued + c.inFlight
  }

  /** A closed socket returns false if there is nothing to send and throws otherwise. */
  predicate Possible(c: Core, o: Outcome) {
    match o
    case More(q, f) => c.IsValid() && Leaves(c, q, f)
    case Drained => c.IsValid() || !c.Pending()
    case Died(q, f) => c.IsValid() && Leaves(c, q, f)
    case Threw(q, f) => Leaves(c, q, f)
  }

  function AfterDoSend(c: Core, o: Outcome): Core {
    match o
    case More(q, f) => c.(queued := q, inFlight := f)
    case Drained => c.(queued := 0, inFlight := 0)
    case Died(q, f) => c.(queued := q, inFlight := f).Drop()
    case Threw(q, f) => c.(queued := q, inFlight := f).Drop()
  }

  /** Steps of a thread. */
  datatype Action =
    | Send(length: nat, blocking: bool, async: bool)
    | Lock
    | Try(outcome: Outcome)     // the socket's send or do_send
    | Wake
    | Test                      // is_valid
    | Set                       // set_mode
    | Close(lost: bool)         // close_socket
    | Deliver(event: Event)
    | ReadDone(died: bool)
    | Rearm

  /** The fields after a step, and where its thread is then. */
  datatype Result = Result(core: Core, pc: Pc)

  /** One step of a thread at `pc`; `free` says that nobody has the mutex. */
  function Act(c: Core, free: bool, pc: Pc, a: Action): Option<Result> {
    match a
    case Send(length, blocking, async) =>
      if pc.Idle? then Some(Result(c, SendLock(Call(length, blocking, async, 0)))) else None
    case Lock => if free then Locked(c, pc) else None
    case Try(outcome) =>
      if pc.SendTry? then TrySend(c, pc.call, outcome)
      else if pc.WriteTry? then TryWrite(c, outcome) else None
    case Wake =>
      if pc.SendBlocked? && !(c.queued > 0 && c.IsValid())
      then Some(Result(c, SendLock(pc.call))) else None
    case Test => Tested(c, pc)
    case Set =>
      if pc.SendSet? then Some(Result(c.SetMode(pc.mode), Idle))
      else if pc.WriteSet? then Some(Result(c.SetMode(ReadOnly), ReRegister)) else None
    case Close(lost) => ClosedBy(c.CloseSocket(lost), pc)
    case Deliver(event) => if pc.Idle? then Delivered(c, event) else None
    case ReadDone(died) =>
      if pc.OnRead? then
        Some(if died || !c.IsValid() then Result(c.Drop(), OnReadClose(pc.thenWrite))
             else Result(c, AfterRead(pc.thenWrite)))
      else None
    case Rearm =>
      if pc.ReRegister? && free then Some(Result(if c.IsValid() then c.Modify(c.mode) else c, Idle)) else None
  }

  function AfterRead(thenWrite: bool): Pc {
    if thenWrite then OnWrite else ReRegister
  }

  function Locked(c: Core, pc: Pc): Option<Result> {
    match pc
    case SendLock(call) => Some(Result(c, SendTry(call)))
    case OnWrite => Some(Result(c, WriteTry))
    case _ => None
  }

  /** `TcpSocket::send` as the listener calls it. */
  function TrySend(c: Core, call: Call, o: Outcome): Option<Result> {
    if call.length == 0 || !c.IsValid() then Some(Result(c, SendClose(call.enq)))
    else if c.queued >= c.limit then
      Some(Result(c, if call.blocking then SendBlocked(call) else SendClose(call.enq)))
    else
      var e, enq := c.(queued := c.queued + call.length + 4), call.enq + 1;
      if call.async then Some(Result(e, SendCheck(true, enq)))
      else if Possible(e, o) then
        Some(Result(AfterDoSend(e, o), if o.Threw? then SendClose(enq) else SendCheck(o.More?, enq)))
      else None
  }

  function TryWrite(c: Core, o: Outcome): Option<Result> {
    if Possible(c, o) then Some(Result(AfterDoSend(c, o), if o.Threw? then WriteFailed else WriteCheck(o.More?)))
    else None
  }

  function Tested(c: Core, pc: Pc): Option<Result> {
    match pc
    case SendCheck(hasMore, e) =>
      Some(Result(c, if c.IsValid() then SendSet(if hasMore then ReadWrite else ReadOnly, e) else SendGone(e)))
    case WriteCheck(hasMore) =>
      Some(Result(c, if !hasMore && c.IsValid() then WriteSet else ReRegister))
    case WriteClosed =>
      // set_mode without the mutex, were the socket still valid
      Some(Result(if c.IsValid() then c.SetMode(ReadOnly) else c, ReRegister))
    case _ => None
  }

  function ClosedBy(c: Core, pc: Pc): Option<Result> {
    match pc
    case SendClose(e) => Some(Result(c, SendCheck(false, e)))
    case SendGone(_) => Some(Result(c, Idle))
    case OnReadClose(thenWrite) => Some(Result(c, AfterRead(thenWrite)))
    case WriteFailed => Some(Result(c, WriteClosed))
    case OnError => Some(Result(c, ReRegister))
    case _ => None
  }

  function Delivered(c: Core, event: Event): Option<Result> {
    if c.inTable && c.armed && c.interest.Some? && (event.Write? || event.ReadAndWrite? ==> c.interest.value.write)
    then
      Some(Result(c.(armed := false),
                  match event
                  case Read => OnRead(false)
                  case Write => OnWrite
                  case ReadAndWrite => OnRead(true)
                  case Error => OnError))
    else None
  }

  datatype Listener = Listener(
    core: Core,
    mutex: Option<Tid>,
    threads: map<Tid, Pc>,
    handlers: set<Tid>)         // workers between the delivery of an event and re-registration
  {
    function At(t: Tid): Pc {
      if t in threads then threads[t] else Idle
    }

    /** Thread `t` is now at `pc`; where it is decides whether it has the mutex. */
    function Moved(t: Tid, pc: Pc, c: Core): Listener {
      Listener(c,
               if Holds(pc) then Some(t) else if mutex == Some(t) then None else mutex,
               threads[t := pc],
               if Handles(pc) then handlers + {t} else handlers - {t})
    }
  }

  datatype Label =
    | Thread(t: Tid, action: Action)
    | CloseFromOutside(lost: bool)
    | EnterTable
    | AddToEpoll

  function Init(limit: nat): Listener {
    Listener(Core(limit, Connected, 0, 0, ReadOnly, false, false, None, false), None, map[], {})
  }

  function Next(s: Listener, l: Label): Option<Listener> {
    match l
    case Thread(t, a) =>
      (match Act(s.core, s.mutex.None?, s.At(t), a)
       case None => None
       case Some(Result(c, pc)) => Some(s.Moved(t, pc, c)))
    case _ =>
      (match Outside(s.core, s.mutex.None?, l)
       case None => None
       case Some(c) => Some(s.(core := c)))
  }

  function Outside(c: Core, free: bool, l: Label): Option<Core>
    requires !l.Thread?
  {
    match l
    case CloseFromOutside(lost) => Some(c.CloseSocket(lost))
    case EnterTable => if c.IsValid() && !c.inTable then Some(c.(inTable := true, adding := true)) else None
    case AddToEpoll =>
      if c.adding && free then
        Some(if c.IsValid() && c.inTable
             then c.(adding := false, interest := Some(Flags(c.mode)), armed := true)
             else c.(adding := false))
      else None
  }

  // ---------------------------------------------------------------- invariant

  ghost predicate Threads(s: Listener) {
    forall t: Tid :: (Holds(s.At(t)) <==> s.mutex == Some(t)) && (Handles(s.At(t)) <==> t in s.handlers)
  }

  /** While connected, the mode asks for writability exactly if there are unsent bytes. */
  predicate InStep(c: Core) {
    Left(c, c.mode.ReadWrite?)
  }

  predicate Left(c: Core, some: bool) {
    c.sock.Connected? ==> (c.Pending() <==> some)
  }

  /** The message was enqueued once, or not at all on a connection that is gone. */
  predicate Enqueued(c: Core, e: nat) {
    e == 1 || (e == 0 && !c.sock.Connected?)
  }

  /** What a thread knows at each point. */
  predicate Knows(c: Core, pc: Pc) {
    match pc
    case SendLock(call) => call.enq == 0
    case SendTry(call) => InStep(c) && call.enq == 0
    case SendBlocked(call) => call.enq == 0
    case SendClose(e) => InStep(c) && e <= 1 && (c.IsValid() ==> e == 0)
    case SendCheck(hasMore, e) => Left(c, hasMore) && Enqueued(c, e)
    case SendSet(mode, e) => Left(c, mode.ReadWrite?) && Enqueued(c, e)
    case SendGone(e) => !c.IsValid() && Enqueued(c, e)
    case WriteTry => InStep(c)
    case WriteCheck(hasMore) => Left(c, hasMore) && (hasMore ==> InStep(c))
    case WriteSet => Left(c, false)
    case WriteFailed => !c.IsValid()
    case WriteClosed => !c.IsValid()
    case _ => true
  }

  /** What epoll watches for is what the mode asks for, and an entry of an open socket is
      in epoll or about to be. */
  predicate Watched(c: Core) {
    && (c.interest.Some? ==> c.inTable && c.IsValid() && c.interest.value == Flags(c.mode))
    && (c.armed ==> c.interest.Some?)
    && (c.inTable && c.IsValid() ==> c.interest.Some? || c.adding)
  }

  /** In epoll, but unable to deliver an event. */
  predicate Disarmed(c: Core) {
    c.interest.Some? && !c.armed
  }

  ghost predicate Inv(s: Listener) {
    && Threads(s) && Watched(s.core)
    && (Disarmed(s.core) ==> s.handlers != {})
    && (s.mutex.None? ==> InStep(s.core))
    && (forall t: Tid :: Knows(s.core, s.At(t)))
  }

  // ---------------------------------------------------------------- what one thread does

  /** A connection only ever goes from connected to shut down to closed. */
  predicate Forward(before: Sock, after: Sock) {
    (before.Closed? ==> after.Closed?) && (after.Connected? ==> before.Connected?)
  }

  lemma ActForward(c: Core, free: bool, pc: Pc, a: Action, r: Result)
    requires Act(c, free, pc, a) == Some(r)
    ensures Forward(c.sock, r.core.sock)
  {
  }

  /** Only the owner of the mutex changes the mode and what is left to send. */
  lemma ActWithoutMutex(c: Core, free: bool, pc: Pc, a: Action, r: Result)
    requires Act(c, free, pc, a) == Some(r) && !Holds(pc) && Knows(c, pc)
    ensures r.core.mode == c.mode && r.core.queued == c.queued && r.core.inFlight == c.inFlight
    ensures Holds(r.pc) ==> free
  {
  }

  lemma ActWatched(c: Core, free: bool, pc: Pc, a: Action, r: Result)
    requires Act(c, free, pc, a) == Some(r) && Watched(c)
    ensures Watched(r.core)
    ensures Disarmed(r.core) ==> Handles(r.pc) || (!Handles(pc) && Disarmed(c))
  {
    match a
    case Try(_) => TryWatched(c, free, pc, a, r);
    case Close(_) => CloseWatched(c, free, pc, a, r);
    case _ =>
  }

  lemma TryWatched(c: Core, free: bool, pc: Pc, a: Action, r: Result)
    requires a.Try? && Act(c, free, pc, a) == Some(r) && Watched(c)
    ensures Watched(r.core)
    ensures Disarmed(r.core) ==> Disarmed(c) && (Handles(r.pc) <==> Handles(pc))
  {
  }

  lemma CloseWatched(c: Core, free: bool, pc: Pc, a: Action, r: Result)
    requires a.Close? && Act(c, free, pc, a) == Some(r) && Watched(c)
    ensures Watched(r.core)
    ensures Disarmed(r.core) ==> Disarmed(c) && (Handles(pc) ==> Handles(r.pc))
  {
  }

  lemma ActKnows(c: Core, free: bool, pc: Pc, a: Action, r: Result)
    requires Act(c, free, pc, a) == Some(r) && Knows(c, pc) && (free ==> InStep(c))
    ensures Knows(r.core, r.pc)
    ensures Holds(pc) && !Holds(r.pc) ==> InStep(r.core)
  {
    match a
    case Try(_) => TryKnows(c, free, pc, a, r);
    case Close(_) => CloseKnows(c, free, pc, a, r);
    case _ =>
  }

  lemma TryKnows(c: Core, free: bool, pc: Pc, a: Action, r: Result)
    requires a.Try? && Act(c, free, pc, a) == Some(r) && Knows(c, pc)
    ensures Knows(r.core, r.pc)
    ensures Holds(pc) && !Holds(r.pc) ==> InStep(r.core)
  {
  }

  lemma CloseKnows(c: Core, free: bool, pc: Pc, a: Action, r: Result)
    requires a.Close? && Act(c, free, pc, a) == Some(r) && Knows(c, pc)
    ensures Knows(r.core, r.pc)
    ensures Holds(pc) && !Holds(r.pc) ==> InStep(r.core)
  {
  }

  lemma KnowsStays(c: Core, r: Core, pc: Pc)
    requires Knows(c, pc) && Forward(c.sock, r.sock)
    requires Holds(pc) ==> r.mode == c.mode && r.queued == c.queued && r.inFlight == c.inFlight
    ensures Knows(r, pc)
  {
  }

  // ---------------------------------------------------------------- every interleaving

  lemma MovedThreads(s: Listener, t: Tid, pc: Pc, c: Core)
    requires Threads(s) && (Holds(pc) ==> Holds(s.At(t)) || s.mutex.None?)
    ensures Threads(s.Moved(t, pc, c))
    ensures forall u: Tid :: s.Moved(t, pc, c).At(u) == if u == t then pc else s.At(u)
  {
  }

  lemma OtherKnows(s: Listener, t: Tid, u: Tid, c: Core)
    requires Inv(s) && u != t && Forward(s.core.sock, c.sock)
    requires !Holds(s.At(t)) ==>
               c.mode == s.core.mode && c.queued == s.core.queued && c.inFlight == s.core.inFlight
    ensures Knows(c, s.At(u))
  {
    assert Knows(s.core, s.At(u));
    KnowsStays(s.core, c, s.At(u));
  }

  lemma ThreadStepKeepsInv(s: Listener, t: Tid, a: Action, r: Listener)
    requires Inv(s) && Next(s, Thread(t, a)) == Some(r)
    ensures Inv(r)
  {
    var c, pc, free := s.core, s.At(t), s.mutex.None?;
    var q := Act(c, free, pc, a).value;
    assert Knows(c, pc);
    ActForward(c, free, pc, a, q);
    ActWatched(c, free, pc, a, q);
    ActKnows(c, free, pc, a, q);
    if !Holds(pc) {
      ActWithoutMutex(c, free, pc, a, q);
    }
    MovedThreads(s, t, q.pc, q.core);
    forall u: Tid
      ensures Knows(r.core, r.At(u))
    {
      if u != t {
        OtherKnows(s, t, u, r.core);
      }
    }
    if Disarmed(r.core) && !Handles(q.pc) {
      assert r.handlers == s.handlers;
    }
  }

  lemma OutsideStepKeepsInv(s: Listener, l: Label, r: Listener)
    requires Inv(s) && !l.Thread? && Next(s, l) == Some(r)
    ensures Inv(r)
  {
    forall u: Tid
      ensures Knows(r.core, r.At(u))
    {
      assert Knows(s.core, s.At(u));
      KnowsStays(s.core, r.core, s.At(u));
    }
    assert forall u: Tid :: r.At(u) == s.At(u);
  }

  lemma EveryRunIsSafe(limit: nat, steps: seq<Label>)
    ensures var r := Run(Next, Init(limit), steps); r.Some? ==> Inv(r.value)
  {
    forall s, l | Inv(s) && Next(s, l).Some? ensures Inv(Next(s, l).value) {
      if l.Thread? {
        ThreadStepKeepsInv(s, l.t, l.action, Next(s, l).value);
      } else {
        OutsideStepKeepsInv(s, l, Next(s, l).value);
      }
    }
    InvariantAlongRun(Next, Inv, Init(limit), steps);
  }

  /** No lost write interest, and none kept up for nothing: in every run, whenever the send
      mutex is free and the socket is connected, the mode asks for writability exactly if
      there are bytes to send; if the descriptor is in epoll, epoll watches for just that and
      is armed, or a worker is about to re-arm it. */
  lemma NoLostWriteInterest(limit: nat, steps: seq<Label>)
    ensures var r := Run(Next, Init(limit), steps);
            r.Some? && r.value.mutex.None? && r.value.core.sock.Connected? ==>
              && (r.value.core.mode.ReadWrite? <==> r.value.core.Pending())
              && (r.value.core.inTable && !r.value.core.adding ==>
                    && r.value.core.interest == Some(Interest(true, r.value.core.Pending()))
                    && (r.value.core.armed || r.value.handlers != {}))
  {
    EveryRunIsSafe(limit, steps);
  }

  /** Blocking send: however often it had to wait, a message is enqueued at most once, and
      when `send` returns it was enqueued exactly once or the connection is gone. */
  lemma SendEnqueuesOnce(limit: nat, steps: seq<Label>, t: Tid, a: Action)
    ensures var s := Run(Next, Init(limit), steps);
            s.Some? ==>
              var pc := s.value.At(t);
              && (pc.SendLock? || pc.SendTry? || pc.SendBlocked? ==> pc.call.enq == 0)
              && (pc.SendClose? || pc.SendCheck? || pc.SendSet? || pc.SendGone? ==> pc.enq <= 1)
              && (Returns(s.value, t, a) ==>
                    (pc.SendSet? || pc.SendGone?) && (pc.enq == 1 || !s.value.core.sock.Connected?))
  {
    EveryRunIsSafe(limit, steps);
    var s := Run(Next, Init(limit), steps);
    if s.Some? {
      assert Knows(s.value.core, s.value.At(t));
    }
  }

  predicate Sending(pc: Pc) {
    || pc.SendLock? || pc.SendTry? || pc.SendBlocked? || pc.SendClose? || pc.SendCheck? || pc.SendSet? || pc.SendGone?
  }

  /** Action `a` ends the call of `send` that thread `t` is in. */
  predicate Returns(s: Listener, t: Tid, a: Action) {
    Sending(s.At(t)) && var r := Next(s, Thread(t, a)); r.Some? && !Sending(r.value.At(t))
  }

  /** The handler that calls `set_mode` without the mutex, after an exception, never gets
      to do so: the socket is closed by then. */
  lemma UnlockedSetModeUnreachable(limit: nat, steps: seq<Label>, t: Tid)
    ensures var s := Run(Next, Init(limit), steps);
            s.Some? && s.value.At(t).WriteClosed? ==> !s.value.core.IsValid()
  {
    EveryRunIsSafe(limit, steps);
    var s := Run(Next, Init(limit), steps);
    if s.Some? {
      assert Knows(s.value.core, s.value.At(t));
    }
  }

  // ---------------------------------------------------------------- what each attempt decides

  /** The socket's answer to an attempt to enqueue: a full queue makes a blocking call wait
      and refuses any other, as do an empty message and a closed socket; nothing is changed
      then.  Otherwise the message has been enqueued. */
  lemma AttemptDecides(s: Listener, t: Tid, o: Outcome, r: Listener)
    requires s.At(t).SendTry? && s.At(t).call.enq == 0 && Next(s, Thread(t, Try(o))) == Some(r)
    ensures var call, full := s.At(t).call, s.core.queued >= s.core.limit;
            && (r.At(t) == SendBlocked(call) <==> call.length > 0 && s.core.IsValid() && full && call.blocking)
            && (r.At(t) == SendClose(0)
                <==> call.length == 0 || !s.core.IsValid() || (full && !call.blocking))
            && (r.At(t).SendBlocked? || r.At(t) == SendClose(0) ==> r.core == s.core)
            && (!r.At(t).SendBlocked? && r.At(t) != SendClose(0) ==> r.At(t).enq == 1)
            && (r.At(t).SendBlocked? ==> r.mutex != Some(t))
  {
  }

  /** A blocked call goes on exactly when the queue is empty or the socket closed. */
  lemma WakesIffEmptyOrClosed(s: Listener, t: Tid)
    requires s.At(t).SendBlocked?
    ensures Next(s, Thread(t, Wake)).Some? <==> s.core.queued == 0 || !s.core.IsValid()
    ensures forall a :: Next(s, Thread(t, a)).Some? ==> a.Wake?
  {
  }

  /** Closing in a handler, after an exception or on an error event: the socket is no longer
      connected, and once it is closed the listener has left the table. */
  lemma ClosingDisconnects(s: Listener, t: Tid, lost: bool, r: Listener)
    requires Next(s, Thread(t, Close(lost))) == Some(r)
    ensures !r.core.sock.Connected? && (r.core.sock.Closed? ==> !r.core.inTable)
    ensures s.core.sock.Connected? && !lost ==> r.core.sock.Shutdown? && r.core.inTable == s.core.inTable
  {
  }

  // ---------------------------------------------------------------- that things get done

  /** One thread on its own; `free` says that nobody has the mutex. */
  datatype Solo = Solo(core: Core, pc: Pc, free: bool)

  function SoloNext(x: Solo, a: Action): Option<Solo> {
    match Act(x.core, x.free, x.pc, a)
    case None => None
    case Some(Result(c, pc)) => Some(Solo(c, pc, !Holds(pc) && (x.free || Holds(x.pc))))
  }

  function By(t: Tid, actions: seq<Action>): (steps: seq<Label>)
    ensures |steps| == |actions|
  {
    seq(|actions|, i requires 0 <= i < |actions| => Thread(t, actions[i]))
  }

  /** What the thread does on its own is a run of the listener. */
  lemma {:induction false} SoloIsRun(s: Listener, t: Tid, actions: seq<Action>, x: Solo) returns (r: Listener)
    requires (Holds(s.At(t)) <==> s.mutex == Some(t))
    requires Leads(SoloNext, Solo(s.core, s.At(t), s.mutex.None?), actions, x)
    ensures Leads(Next, s, By(t, actions), r) && r.core == x.core && r.At(t) == x.pc && (r.mutex.None? <==> x.free)
    decreases |actions|
  {
    if actions == [] {
      r := s;
    } else {
      var Result(c, pc) := Act(s.core, s.mutex.None?, s.At(t), actions[0]).value;
      var q := s.Moved(t, pc, c);
      r := SoloIsRun(q, t, actions[1..], x);
      LeadsOne(Next, s, Thread(t, actions[0]), q);
      LeadsOn(Next, s, [Thread(t, actions[0])], q, By(t, actions[1..]), r);
      assert By(t, actions) == [Thread(t, actions[0])] + By(t, actions[1..]);
    }
  }

  /** What a call of `send` that is not refused leaves behind. */
  function AfterSend(c: Core, length: nat, async: bool, o: Outcome): Core {
    var e := c.(queued := c.queued + length + 4);
    if async then e.SetMode(ReadWrite)
    else
      match o
      case More(_, _) => AfterDoSend(e, o).SetMode(ReadWrite)
      case Drained => AfterDoSend(e, o).SetMode(ReadOnly)
      case _ => AfterDoSend(e, o).CloseSocket(false)
  }

  lemma AttemptSolo(x: Solo, call: Call, o: Outcome) returns (actions: seq<Action>, y: Solo)
    requires x.pc.Idle? && x.free && call.enq == 0
    requires x.core.IsValid() && call.length > 0 && x.core.queued < x.core.limit
    requires call.async || Possible(x.core.(queued := x.core.queued + call.length + 4), o)
    ensures Leads(SoloNext, x, actions, y) && !y.free
    ensures var e := x.core.(queued := x.core.queued + call.length + 4);
            && y.core == (if call.async then e else AfterDoSend(e, o))
            && y.pc == if call.async || o.More? then SendCheck(true, 1)
                       else if o.Threw? then SendClose(1) else SendCheck(false, 1)
  {
    var x1, x2 := x.(pc := SendLock(call)), x.(pc := SendTry(call), free := false);
    var send := Send(call.length, call.blocking, call.async);
    LeadsOne(SoloNext, x, send, x1);
    LeadsOneMore(SoloNext, x, [send], x1, Lock, x2);
    actions := [send] + [Lock];
    y := SoloNext(x2, Try(o)).value;
    LeadsOneMore(SoloNext, x, actions, x2, Try(o), y);
    actions := actions + [Try(o)];
  }

  lemma SetSolo(x: Solo, hasMore: bool) returns (actions: seq<Action>, y: Solo)
    requires x.pc == SendCheck(hasMore, 1) && !x.free && x.core.IsValid()
    ensures Leads(SoloNext, x, actions, y)
    ensures y == Solo(x.core.SetMode(if hasMore then ReadWrite else ReadOnly), Idle, true)
  {
    var x1 := x.(pc := SendSet(if hasMore then ReadWrite else ReadOnly, 1));
    LeadsOne(SoloNext, x, Test, x1);
    y := Solo(x.core.SetMode(x1.pc.mode), Idle, true);
    LeadsOneMore(SoloNext, x, [Test], x1, Set, y);
    actions := [Test] + [Set];
  }

  lemma GoneSolo(x: Solo) returns (actions: seq<Action>, y: Solo)
    requires (x.pc == SendCheck(false, 1) || x.pc == SendClose(1)) && !x.free && !x.core.IsValid()
    ensures Leads(SoloNext, x, actions, y) && y == Solo(x.core.CloseSocket(false), Idle, true)
  {
    var x1 := x;
    actions := [];
    if x.pc.SendClose? {
      x1 := Solo(x.core.CloseSocket(false), SendCheck(false, 1), false);
      LeadsOne(SoloNext, x, Close(false), x1);
      actions := [Close(false)];
    }
    var x2 := x1.(pc := SendGone(1));
    LeadsOneMore(SoloNext, x, actions, x1, Test, x2);
    actions := actions + [Test];
    y := Solo(x2.core.CloseSocket(false), Idle, true);
    LeadsOneMore(SoloNext, x, actions, x2, Close(false), y);
    actions := actions + [Close(false)];
  }

  /** With nobody in the way, a call of `send` on a connected socket with room in the queue
      goes through by the steps of its thread alone: the message is enqueued, sent as far as
      `do_send` gets, and the mode set accordingly, or the listener closed. */
  lemma SendGoesThrough(s: Listener, t: Tid, length: nat, blocking: bool, async: bool, o: Outcome)
      returns (actions: seq<Action>, r: Listener)
    requires s.At(t).Idle? && s.mutex.None? && s.core.sock.Connected? && length > 0 && s.core.queued < s.core.limit
    requires async || Possible(s.core.(queued := s.core.queued + length + 4), o)
    ensures Leads(Next, s, By(t, actions), r) && r.At(t).Idle? && r.mutex.None?
    ensures r.core == AfterSend(s.core, length, async, o)
  {
    var x := Solo(s.core, Idle, true);
    var y, z, more;
    actions, y := AttemptSolo(x, Call(length, blocking, async, 0), o);
    if async || o.More? {
      more, z := SetSolo(y, true);
    } else if o.Drained? {
      more, z := SetSolo(y, false);
    } else {
      more, z := GoneSolo(y);
    }
    LeadsOn(SoloNext, x, actions, y, more, z);
    actions := actions + more;
    r := SoloIsRun(s, t, actions, z);
  }

  /** What `on_write_ready` leaves behind for each outcome of `do_send`.  An exception closes
      the listener; a connection that is found lost does not. */
  function AfterWrite(c: Core, o: Outcome): Core {
    match o
    case More(_, _) => AfterDoSend(c, o)
    case Drained => AfterDoSend(c, o).SetMode(ReadOnly)
    case Died(_, _) => AfterDoSend(c, o)
    case Threw(_, _) => AfterDoSend(c, o).CloseSocket(false)
  }

  lemma WriteSolo(x: Solo, o: Outcome) returns (actions: seq<Action>, y: Solo)
    requires x.pc.OnWrite? && x.free && x.core.sock.Connected? && Possible(x.core, o)
    ensures Leads(SoloNext, x, actions, y) && y == Solo(AfterWrite(x.core, o), ReRegister, true)
  {
    var c, x1 := AfterDoSend(x.core, o), Solo(x.core, WriteTry, false);
    LeadsOne(SoloNext, x, Lock, x1);
    actions := [Lock] + [Try(o)];
    var more;
    if o.Threw? {
      var x2 := Solo(c, WriteFailed, true);
      LeadsOneMore(SoloNext, x, [Lock], x1, Try(o), x2);
      more, y := ThrewSolo(x2);
      LeadsOn(SoloNext, x, actions, x2, more, y);
    } else {
      var x2 := Solo(c, WriteCheck(o.More?), false);
      LeadsOneMore(SoloNext, x, [Lock], x1, Try(o), x2);
      more, y := CheckSolo(x2);
      LeadsOn(SoloNext, x, actions, x2, more, y);
    }
    actions := actions + more;
  }

  lemma ThrewSolo(x: Solo) returns (actions: seq<Action>, y: Solo)
    requires x.pc.WriteFailed? && x.free && x.core.sock.Closed?
    ensures Leads(SoloNext, x, actions, y) && y == Solo(x.core.CloseSocket(false), ReRegister, true)
  {
    var x1 := Solo(x.core.CloseSocket(false), WriteClosed, true);
    LeadsOne(SoloNext, x, Close(false), x1);
    y := x1.(pc := ReRegister);
    LeadsOneMore(SoloNext, x, [Close(false)], x1, Test, y);
    actions := [Close(false)] + [Test];
  }

  lemma CheckSolo(x: Solo) returns (actions: seq<Action>, y: Solo)
    requires x.pc.WriteCheck? && !x.free
    ensures Leads(SoloNext, x, actions, y)
    ensures y == Solo(if !x.pc.hasMore && x.core.IsValid() then x.core.SetMode(ReadOnly) else x.core, ReRegister, true)
  {
    if !x.pc.hasMore && x.core.IsValid() {
      var x1 := x.(pc := WriteSet);
      LeadsOne(SoloNext, x, Test, x1);
      y := Solo(x.core.SetMode(ReadOnly), ReRegister, true);
      LeadsOneMore(SoloNext, x, [Test], x1, Set, y);
      actions := [Test] + [Set];
    } else {
      y := Solo(x.core, ReRegister, true);
      LeadsOne(SoloNext, x, Test, y);
      actions := [Test];
    }
  }

  lemma ReadSolo(x: Solo, died: bool) returns (actions: seq<Action>, y: Solo)
    requires x.pc.OnRead? && x.free && x.core.sock.Connected?
    ensures Leads(SoloNext, x, actions, y) && y.free && y.pc == AfterRead(x.pc.thenWrite)
    ensures y.core == if died then x.core.Drop().CloseSocket(false) else x.core
  {
    actions := [ReadDone(died)];
    if died {
      var x1 := x.(core := x.core.Drop(), pc := OnReadClose(x.pc.thenWrite));
      LeadsOne(SoloNext, x, ReadDone(died), x1);
      y := x1.(core := x1.core.CloseSocket(false), pc := AfterRead(x.pc.thenWrite));
      LeadsOneMore(SoloNext, x, actions, x1, Close(false), y);
      actions := actions + [Close(false)];
    } else {
      y := x.(pc := AfterRead(x.pc.thenWrite));
      LeadsOne(SoloNext, x, ReadDone(died), y);
    }
  }

  /** What a handler makes of an event before it registers again. */
  function AfterEvent(c: Core, event: Event, died: bool, o: Outcome): Core {
    match event
    case Read => if died then c.Drop().CloseSocket(false) else c
    case Error => c.CloseSocket(false)
    case _ => AfterWrite(c, o)
  }

  lemma EventSolo(x: Solo, event: Event, died: bool, o: Outcome) returns (actions: seq<Action>, y: Solo)
    requires x.pc.Idle? && x.free && x.core.sock.Connected? && Act(x.core, true, Idle, Deliver(event)).Some?
    requires event.Write? || event.ReadAndWrite? ==> Possible(x.core, o) && !died
    ensures Leads(SoloNext, x, actions, y) && y.free && y.pc.ReRegister?
    ensures y.core == AfterEvent(x.core.(armed := false), event, died, o)
  {
    var c, q, more := x.core.(armed := false), x, [];
    actions, y := [Deliver(event)], x.(core := c, pc := FirstOf(event));
    LeadsOne(SoloNext, x, Deliver(event), y);
    if event.Read? || event.ReadAndWrite? {
      q := y;
      more, y := ReadSolo(q, died);
      LeadsOn(SoloNext, x, actions, q, more, y);
      actions := actions + more;
    }
    if event.Write? || event.ReadAndWrite? {
      q := y;
      more, y := WriteSolo(q, o);
      LeadsOn(SoloNext, x, actions, q, more, y);
      actions := actions + more;
    } else if event.Error? {
      q := y;
      y := q.(core := c.CloseSocket(false), pc := ReRegister);
      LeadsOneMore(SoloNext, x, actions, q, Close(false), y);
      actions := actions + [Close(false)];
    }
  }

  function FirstOf(event: Event): Pc {
    match event
    case Read => OnRead(false)
    case Write => OnWrite
    case ReadAndWrite => OnRead(true)
    case Error => OnError
  }

  /** An event that is delivered to an idle worker is acted on by that worker alone: for
      writability it sends, with `o` as the outcome, and stops asking for it when nothing is
      left; an exception closes the listener; on an error it shuts down; a socket that dies while it is read is closed and
      leaves the table.  If it is in epoll in the end, it is armed again. */
  lemma EventIsHandled(s: Listener, t: Tid, event: Event, died: bool, o: Outcome)
      returns (actions: seq<Action>, r: Listener)
    requires s.At(t).Idle? && s.mutex.None? && s.core.sock.Connected?
    requires Act(s.core, true, Idle, Deliver(event)).Some?
    requires event.Write? || event.ReadAndWrite? ==> Possible(s.core, o) && !died
    ensures Leads(Next, s, By(t, actions), r) && r.At(t).Idle? && r.mutex.None?
    ensures r.core.inTable && r.core.IsValid() ==> r.core.interest == Some(Flags(r.core.mode)) && r.core.armed
    ensures match event
            case Error => r.core.sock.Shutdown?
            case Read => if died then r.core.sock.Closed? && !r.core.inTable else r.core.sock.Connected?
            case _ =>
              && r.core.queued == AfterDoSend(s.core, o).queued && r.core.inFlight == AfterDoSend(s.core, o).inFlight
              && r.core.mode == (if o.Drained? then ReadOnly else s.core.mode)
              && (r.core.sock == if o.More? || o.Drained? then s.core.sock else Closed)
              && (r.core.inTable <==> s.core.inTable && !o.Threw?)
  {
    var x := Solo(s.core, Idle, true);
    var y;
    actions, y := EventSolo(x, event, died, o);
    var z := Solo(if y.core.IsValid() then y.core.Modify(y.core.mode) else y.core, Idle, true);
    LeadsOneMore(SoloNext, x, actions, y, Rearm, z);
    actions := actions + [Rearm];
    r := SoloIsRun(s, t, actions, z);
  }

  /** In every run, if a connection in epoll has bytes to send and nobody is at work on it, an
      event for writability can be delivered, and then any outcome that `do_send` may have
      there comes about. */
  lemma PendingCanBeSent(limit: nat, before: seq<Label>, s: Listener, t: Tid, o: Outcome)
      returns (actions: seq<Action>, r: Listener)
    requires Leads(Next, Init(limit), before, s) && s.mutex.None? && s.handlers == {} && s.At(t).Idle?
    requires s.core.sock.Connected? && s.core.Pending() && s.core.inTable && !s.core.adding
    requires Possible(s.core, o) && (o.More? || o.Drained?)
    ensures Leads(Next, s, By(t, actions), r) && r.At(t).Idle? && r.mutex.None? && r.core.sock.Connected?
    ensures r.core.queued == AfterDoSend(s.core, o).queued && r.core.inFlight == AfterDoSend(s.core, o).inFlight
    ensures r.core.mode.ReadWrite? <==> o.More?
  {
    NoLostWriteInterest(limit, before);
    actions, r := EventIsHandled(s, t, Write, false, o);
  }
}
