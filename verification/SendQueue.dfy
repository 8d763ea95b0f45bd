/** The sending half of a TCP socket as a transition system: any number of threads
    enqueue messages, drain the queue into the socket, wait for room and close the
    socket, interleaved at every acquisition of a mutex and every write. */
module SendQueue {
  import opened Runs
  import opened Framing

  datatype OutMessage = OutMessage(data: Bytes, length: nat, sentPos: nat) {
    predicate Valid() {
      0 < length == |data| < U32 && sentPos <= length
    }

    function Unsent(): Bytes
      requires Valid()
    {
      data[sentPos..]
    }
  }

  type Tid = nat

  /** Where a thread is.  `Top`, `Have` and `Writing` are inside `do_send`, holding its mutex. */
  datatype Pc =
    | Idle
    | Checked(payload: Bytes, async: bool)  // `send` has found the socket open
    | WantSend                              // about to lock the send mutex
    | Top                                   // at the head of the outer loop
    | Have                                  // there is a current message
    | Writing                               // in the inner loop
    | Sleeping                              // on the condition variable
    | Waking                                // notified, will look again

  datatype Sender = Sender(
    limit: nat,                   // m_max_send_queue_size
    queue: seq<OutMessage>,
    queueSize: int,
    current: Option<OutMessage>,
    open: bool,                   // m_fd > 0
    lock: Option<Tid>,            // owner of m_send_mutex
    threads: map<Tid, Pc>,
    notifying: nat,               // closes that have invalidated m_fd and not yet notified
    silent: bool,                 // some close returned without notifying
    wire: Bytes,                  // everything the kernel has accepted
    accepted: seq<Bytes>)         // payloads in the order they were enqueued
  {
    function At(t: Tid): Pc {
      if t in threads then threads[t] else Idle
    }

    function Goto(t: Tid, pc: Pc): (r: Sender)
      ensures forall u: Tid :: r.At(u) == if u == t then pc else At(u)
    {
      this.(threads := threads[t := pc])
    }

    function Leave(t: Tid): (r: Sender)
      ensures forall u: Tid :: r.At(u) == if u == t then Idle else At(u)
    {
      Goto(t, Idle).(lock := None)
    }

    function NotifyAll(): (r: Sender)
      ensures forall u: Tid :: r.At(u) == if At(u).Sleeping? then Waking else At(u)
    {
      this.(threads := map t | t in threads :: if threads[t].Sleeping? then Waking else threads[t])
    }

    function Close(): Sender {
      this.(open := false, notifying := notifying + 1)
    }
  }

  /** Outcome of a write: bytes taken, an end of stream, EAGAIN, ECONNRESET or EPIPE, any other error. */
  datatype WriteResult = Wrote(count: nat) | WroteNothing | WouldBlock | PeerGone | WriteFailed

  datatype Label =
    | BeginSend(t: Tid, payload: Bytes, async: bool)
    | Enqueue(t: Tid)
    | BeginDoSend(t: Tid)
    | LockSend(t: Tid)
    | Dequeue(t: Tid)
    | CheckOpen(t: Tid)
    | Write(t: Tid, result: WriteResult)
    | FinishMessage(t: Tid)
    | CloseSocket
    | CloseNotConnected
    | Notify
    | BeginWait(t: Tid)
    | Recheck(t: Tid)

  function Init(limit: nat): Sender {
    Sender(limit, [], 0, None, true, None, map[], 0, false, [], [])
  }

  function Next(s: Sender, l: Label): Option<Sender> {
    if InDoSend(l) then DoSend(s, l) else Other(s, l)
  }

  predicate InDoSend(l: Label) {
    l.LockSend? || l.Dequeue? || l.CheckOpen? || l.Write? || l.FinishMessage?
  }

  /** The steps of `do_send`. */
  function DoSend(s: Sender, l: Label): Option<Sender>
    requires InDoSend(l)
  {
    match l
    case LockSend(t) =>
      if s.At(t).WantSend? && s.lock.None? then Some(s.Goto(t, Top).(lock := Some(t))) else None
    case Dequeue(t) =>
      if s.At(t).Top? then Some(Dequeued(s, t)) else None
    case CheckOpen(t) =>
      if s.At(t).Have? then Some(if s.open then s.Goto(t, Writing) else s.Leave(t)) else None
    case Write(t, result) =>
      if s.At(t).Writing? && s.current.Some? && s.current.value.sentPos < s.current.value.length
      then Written(s, t, s.current.value, result) else None
    case FinishMessage(t) =>
      if s.At(t).Writing? && s.current.Some? && s.current.value.sentPos == s.current.value.length
      then Some(s.Goto(t, Top).(current := None)) else None
  }

  function Other(s: Sender, l: Label): Option<Sender>
    requires !InDoSend(l)
  {
    match l
    case BeginSend(t, payload, async) =>
      if s.At(t).Idle? && s.open && Sendable(payload) then Some(s.Goto(t, Checked(payload, async))) else None
    case Enqueue(t) =>
      if s.At(t).Checked? && Sendable(s.At(t).payload) then Some(Enqueued(s, t)) else None
    case BeginDoSend(t) =>
      if s.At(t).Idle? then Some(s.Goto(t, WantSend)) else None
    case CloseSocket =>
      if s.open then Some(s.Close()) else None
    case CloseNotConnected =>
      if s.open then Some(s.(open := false, silent := true)) else None
    case Notify =>
      if s.notifying > 0 then Some(s.NotifyAll().(notifying := s.notifying - 1)) else None
    case BeginWait(t) =>
      if s.At(t).Idle? then Some(Waited(s, t)) else None
    case Recheck(t) =>
      if s.At(t).Waking? then Some(Waited(s, t)) else None
  }

  /** `send` with the queue mutex held: refuse when full, else frame and append. */
  function Enqueued(s: Sender, t: Tid): Sender
    requires s.At(t).Checked? && Sendable(s.At(t).payload)
  {
    var Checked(payload, async) := s.At(t);
    if s.queueSize >= s.limit then s.Goto(t, Idle)
    else
      var data := Frame(payload);
      s.Goto(t, if async then Idle else WantSend)
      .(queue := s.queue + [OutMessage(data, |data|, 0)],
        queueSize := s.queueSize + |data|,
        accepted := s.accepted + [payload])
  }

  /** The head of the loop in `do_send`, with the queue mutex held while it takes a message. */
  function Dequeued(s: Sender, t: Tid): Sender {
    if s.current.Some? then s.Goto(t, Have)
    else if s.queue == [] then s.Leave(t)
    else
      var m := s.queue[0];
      s.NotifyAll().Goto(t, Have)
      .(current := Some(m), queueSize := s.queueSize - m.length, queue := s.queue[1..])
  }

  /** One write.  A descriptor that was closed meanwhile fails with EBADF; the close that
      follows finds nothing to close, but still notifies. */
  function Written(s: Sender, t: Tid, m: OutMessage, result: WriteResult): Option<Sender> {
    match result
    case Wrote(n) =>
      if s.open && 0 < n && m.sentPos + n <= m.length && m.length == |m.data| then
        Some(s.(current := Some(m.(sentPos := m.sentPos + n)), wire := s.wire + m.data[m.sentPos..m.sentPos + n]))
      else None
    case WroteNothing => if s.open then Some(s.Leave(t).Close()) else None
    case WouldBlock => if s.open then Some(s.Leave(t)) else None
    case PeerGone => if s.open then Some(s.Leave(t).Close()) else None
    case WriteFailed => Some(s.Leave(t).Close())
  }

  /** `wait_send_queue_empty` looking at its condition with the queue mutex held. */
  function Waited(s: Sender, t: Tid): Sender {
    if s.queueSize > 0 && s.open then s.Goto(t, Sleeping) else s.Goto(t, Idle)
  }

  // ---------------------------------------------------------------- invariant

  function QueueBytes(q: seq<OutMessage>): Bytes {
    if q == [] then [] else q[0].data + QueueBytes(q[1..])
  }

  function TotalLength(q: seq<OutMessage>): nat {
    if q == [] then 0 else q[0].length + TotalLength(q[1..])
  }

  function UnsentBytes(current: Option<OutMessage>): Bytes
    requires current.Some? ==> current.value.Valid()
  {
    if current.Some? then current.value.Unsent() else []
  }

  predicate Messages(s: Sender) {
    && (forall i :: 0 <= i < |s.queue| ==> s.queue[i].Valid() && s.queue[i].sentPos == 0)
    && (s.current.Some? ==> s.current.value.Valid())
    && (forall p :: p in s.accepted ==> Sendable(p))
  }

  /** Nothing is lost, duplicated or reordered: what was written, the unsent rest of the
      current message and the queue are together the frames of what was accepted. */
  ghost predicate Conserved(s: Sender) {
    Messages(s) && s.wire + UnsentBytes(s.current) + QueueBytes(s.queue) == Frames(s.accepted)
  }

  /** The byte counter is exact, and only the newest message can take it past the limit. */
  predicate Accounted(s: Sender) {
    && s.queueSize == TotalLength(s.queue)
    && (s.queue != [] ==> TotalLength(s.queue[..|s.queue| - 1]) < s.limit)
  }

  predicate Inside(pc: Pc) {
    pc.Top? || pc.Have? || pc.Writing?
  }

  ghost predicate Locked(s: Sender) {
    && (forall t: Tid :: Inside(s.At(t)) <==> s.lock == Some(t))
    && (forall t: Tid :: s.At(t).Have? || s.At(t).Writing? ==> s.current.Some?)
    && (s.current.Some? && s.current.value.sentPos == s.current.value.length ==>
          s.lock.Some? && s.At(s.lock.value).Writing?)
  }

  /** A sleeping thread has a reason to sleep, or a notification is on its way. */
  ghost predicate NoneStranded(s: Sender) {
    forall t: Tid :: s.At(t).Sleeping? ==> (s.queueSize > 0 && s.open) || s.notifying > 0
  }

  /** Taking a message out wakes everybody, so whoever sleeps does so for the sake of the
      messages that are still queued; and only a close has something to notify of. */
  ghost predicate Waiting(s: Sender) {
    && (forall t: Tid :: s.At(t).Sleeping? ==> s.queue != [])
    && (s.open ==> s.notifying == 0)
    && (!s.silent ==> NoneStranded(s))
  }

  /** What is about to be enqueued can be framed. */
  ghost predicate Pledged(s: Sender) {
    forall t: Tid :: s.At(t).Checked? ==> Sendable(s.At(t).payload)
  }

  ghost predicate Inv(s: Sender) {
    Conserved(s) && Accounted(s) && Locked(s) && Waiting(s) && Pledged(s)
  }

  lemma {:induction false} QueueAppend(q: seq<OutMessage>, m: OutMessage)
    ensures QueueBytes(q + [m]) == QueueBytes(q) + m.data
    ensures TotalLength(q + [m]) == TotalLength(q) + m.length
    decreases |q|
  {
    if q == [] {
      assert [] + [m] == [m] && [m][1..] == [];
      assert m.data + [] == m.data;
    } else {
      assert (q + [m])[1..] == q[1..] + [m];
      QueueAppend(q[1..], m);
    }
  }

  lemma EnqueueAccounts(s: Sender, t: Tid, r: Sender)
    requires Accounted(s) && s.At(t).Checked? && Sendable(s.At(t).payload)
    requires r == Enqueued(s, t)
    ensures Accounted(r)
  {
    if s.queueSize < s.limit {
      QueueAppend(s.queue, r.queue[|s.queue|]);
      assert r.queue[..|r.queue| - 1] == s.queue;
    }
  }

  lemma EnqueueConserves(s: Sender, t: Tid, r: Sender)
    requires Conserved(s) && s.At(t).Checked? && Sendable(s.At(t).payload)
    requires r == Enqueued(s, t)
    ensures Conserved(r)
  {
    var p := s.At(t).payload;
    if s.queueSize < s.limit {
      QueueAppend(s.queue, r.queue[|s.queue|]);
      FramesAppend(s.accepted, p);
      Regroup(s.wire + UnsentBytes(s.current), QueueBytes(s.queue), Frame(p));
    }
  }

  lemma DequeueConserves(s: Sender, t: Tid)
    requires Conserved(s) && Accounted(s) && s.At(t).Top?
    ensures Conserved(Dequeued(s, t)) && Accounted(Dequeued(s, t))
  {
    if s.current.None? && s.queue != [] {
      var r, m := Dequeued(s, t), s.queue[0];
      assert m.Unsent() == m.data;
      assert s.wire + [] == s.wire;
      Regroup(s.wire, m.data, QueueBytes(r.queue));
      if r.queue != [] {
        assert s.queue[..|s.queue| - 1][1..] == r.queue[..|r.queue| - 1];
      }
    }
  }

  lemma WriteMoves(wire: Bytes, m: OutMessage, n: nat, queued: Bytes)
    requires m.Valid() && m.sentPos + n <= m.length
    ensures wire + m.data[m.sentPos..m.sentPos + n] + m.(sentPos := m.sentPos + n).Unsent() + queued
            == wire + m.Unsent() + queued
  {
    var written, rest := m.data[m.sentPos..m.sentPos + n], m.data[m.sentPos + n..];
    assert m.Unsent() == written + rest;
    Regroup(wire, written, rest);
  }

  lemma WroteConserves(s: Sender, n: nat, r: Sender)
    requires Conserved(s) && Accounted(s) && s.current.Some? && s.current.value.sentPos + n <= s.current.value.length
    requires var m := s.current.value;
             r == s.(current := Some(m.(sentPos := m.sentPos + n)), wire := s.wire + m.data[m.sentPos..m.sentPos + n])
    ensures Conserved(r) && Accounted(r)
  {
    WriteMoves(s.wire, s.current.value, n, QueueBytes(s.queue));
  }

  lemma WriteConserves(s: Sender, t: Tid, result: WriteResult)
    requires Conserved(s) && Accounted(s)
    requires s.current.Some? && Written(s, t, s.current.value, result).Some?
    ensures var r := Written(s, t, s.current.value, result).value; Conserved(r) && Accounted(r)
  {
    if result.Wrote? {
      WroteConserves(s, result.count, Written(s, t, s.current.value, result).value);
    }
  }

  /** The steps that move message bytes; the others change threads and flags only. */
  predicate MovesBytes(l: Label) {
    l.Enqueue? || l.Dequeue? || l.Write? || l.FinishMessage?
  }

  lemma OtherStepsKeepBytes(s: Sender, l: Label)
    requires Next(s, l).Some? && !MovesBytes(l)
    ensures var r := Next(s, l).value;
            && r.queue == s.queue && r.queueSize == s.queueSize && r.current == s.current
            && r.wire == s.wire && r.accepted == s.accepted && r.limit == s.limit
  {
  }

  lemma StepConserves(s: Sender, l: Label)
    requires Conserved(s) && Accounted(s) && Next(s, l).Some?
    ensures Conserved(Next(s, l).value) && Accounted(Next(s, l).value)
  {
    if !MovesBytes(l) {
      OtherStepsKeepBytes(s, l);
    } else {
      match l
      case Enqueue(t) =>
        EnqueueAccounts(s, t, Enqueued(s, t));
        EnqueueConserves(s, t, Enqueued(s, t));
      case Dequeue(t) => DequeueConserves(s, t);
      case Write(t, result) => WriteConserves(s, t, result);
      case FinishMessage(t) => FinishConserves(s, t);
    }
  }

  lemma FinishConserves(s: Sender, t: Tid)
    requires Conserved(s) && Accounted(s) && Next(s, FinishMessage(t)).Some?
    ensures var r := Next(s, FinishMessage(t)).value; Conserved(r) && Accounted(r)
  {
    assert s.current.value.Unsent() == [];
  }

  /** A step moves at most one thread; it may also wake sleepers. */
  ghost predicate OnlyMoves(s: Sender, r: Sender, t: Tid) {
    forall u: Tid :: u == t || r.At(u) == s.At(u) || (s.At(u).Sleeping? && r.At(u).Waking?)
  }

  lemma OtherStepsKeepLock(s: Sender, l: Label, r: Sender)
    requires !InDoSend(l) && Other(s, l) == Some(r)
    ensures && r.lock == s.lock && r.current == s.current
            && (forall u: Tid :: r.At(u) == s.At(u) || (!Inside(r.At(u)) && !Inside(s.At(u))))
  {
  }

  lemma DoSendMoves(s: Sender, l: Label, r: Sender)
    requires InDoSend(l) && Locked(s) && DoSend(s, l) == Some(r)
    ensures OnlyMoves(s, r, l.t)
    ensures s.lock == (if l.LockSend? then None else Some(l.t))
    ensures r.lock == if Inside(r.At(l.t)) then Some(l.t) else None
  {
    DoSendOnlyMoves(s, l, r);
  }

  lemma DoSendOnlyMoves(s: Sender, l: Label, r: Sender)
    requires InDoSend(l) && DoSend(s, l) == Some(r)
    ensures OnlyMoves(s, r, l.t)
  {
  }

  lemma DoSendCurrent(s: Sender, l: Label, r: Sender)
    requires InDoSend(l) && Messages(s) && Locked(s) && DoSend(s, l) == Some(r)
    ensures r.At(l.t).Have? || r.At(l.t).Writing? ==> r.current.Some?
    ensures r.current.Some? && r.current.value.sentPos == r.current.value.length ==> r.At(l.t).Writing?
  {
  }

  lemma StepLocks(s: Sender, l: Label, r: Sender)
    requires Messages(s) && Locked(s) && Next(s, l) == Some(r)
    ensures Locked(r)
  {
    if InDoSend(l) {
      DoSendMoves(s, l, r);
      DoSendCurrent(s, l, r);
    } else {
      OtherStepsKeepLock(s, l, r);
    }
  }

  /** Who sleeps after a step slept before it and no message was taken out, or has just
      looked at the condition. */
  lemma StepSleepers(s: Sender, l: Label, r: Sender, u: Tid)
    requires Next(s, l) == Some(r) && r.At(u).Sleeping?
    ensures (s.At(u).Sleeping? && !l.Notify? && s.queue <= r.queue) || (r.queueSize > 0 && r.open && r.queue == s.queue)
  {
    if InDoSend(l) {
      DoSendSleepers(s, l, r, u);
    }
  }

  lemma DoSendSleepers(s: Sender, l: Label, r: Sender, u: Tid)
    requires InDoSend(l) && DoSend(s, l) == Some(r) && r.At(u).Sleeping?
    ensures s.At(u).Sleeping? && s.queue == r.queue
  {
  }

  lemma StepWakes(s: Sender, l: Label, r: Sender)
    requires NoneStranded(s) && Next(s, l) == Some(r) && !l.CloseNotConnected?
    ensures NoneStranded(r)
  {
    forall u: Tid | r.At(u).Sleeping?
      ensures (r.queueSize > 0 && r.open) || r.notifying > 0
    {
      StepSleepers(s, l, r, u);
    }
  }

  lemma StepNotifying(s: Sender, l: Label, r: Sender)
    requires (s.open ==> s.notifying == 0) && Next(s, l) == Some(r)
    ensures r.open ==> r.notifying == 0
  {
  }

  lemma StepWaiting(s: Sender, l: Label, r: Sender)
    requires Waiting(s) && Accounted(r) && Next(s, l) == Some(r)
    ensures Waiting(r)
  {
    forall u: Tid | r.At(u).Sleeping?
      ensures r.queue != []
    {
      StepSleepers(s, l, r, u);
    }
    StepNotifying(s, l, r);
    StepSilence(s, l);
    if !r.silent {
      StepWakes(s, l, r);
    }
  }

  lemma StepPledged(s: Sender, l: Label, r: Sender)
    requires Pledged(s) && Next(s, l) == Some(r)
    ensures Pledged(r)
  {
    forall t: Tid | r.At(t).Checked? ensures Sendable(r.At(t).payload) {
      assert s.At(t).Checked? ==> Sendable(s.At(t).payload);
      StepChecks(s, l, r, t);
    }
  }

  lemma StepChecks(s: Sender, l: Label, r: Sender, t: Tid)
    requires Next(s, l) == Some(r) && r.At(t).Checked?
    ensures r.At(t) == s.At(t) || Sendable(r.At(t).payload)
  {
  }

  lemma StepSilence(s: Sender, l: Label)
    requires Next(s, l).Some?
    ensures Next(s, l).value.silent == (s.silent || l.CloseNotConnected?)
  {
  }

  /** Every step of every thread keeps the invariant. */
  lemma StepKeepsInv(s: Sender, l: Label, r: Sender)
    requires Inv(s) && Next(s, l) == Some(r)
    ensures Inv(r)
  {
    assert Conserved(r) && Accounted(r) by { StepConserves(s, l); }
    assert Locked(r) by { StepLocks(s, l, r); }
    StepWaiting(s, l, r);
    StepPledged(s, l, r);
  }

  /** Byte conservation, exact accounting and no stranded waiter in every state of every run. */
  lemma EveryRunIsSafe(limit: nat, steps: seq<Label>)
    ensures var r := Run(Next, Init(limit), steps); r.Some? ==> Inv(r.value)
  {
    forall s, l | Inv(s) && Next(s, l).Some? ensures Inv(Next(s, l).value) {
      StepKeepsInv(s, l, Next(s, l).value);
    }
    InvariantAlongRun(Next, Inv, Init(limit), steps);
  }

  predicate Initial(s: Sender) { s == Init(s.limit) }

  /** Some run from an empty, open socket ends in `s`. */
  ghost predicate Reachable(s: Sender) {
    Reaches(Next, Initial, s)
  }

  lemma ReachableIsSafe(s: Sender)
    requires Reachable(s)
    ensures Inv(s)
  {
    var s0, steps :| Initial(s0) && Leads(Next, s0, steps, s);
    EveryRunIsSafe(s0.limit, steps);
  }

  lemma ReachableMessage(s: Sender)
    requires Reachable(s)
    ensures s.current.Some? ==> s.current.value.Valid()
  {
    ReachableIsSafe(s);
  }

  /** `steps` lead from `s` to the reachable state `r`. */
  ghost predicate Took(s: Sender, steps: seq<Label>, r: Sender) {
    Reachable(r) && Leads(Next, s, steps, r)
  }

  lemma TookOne(s: Sender, l: Label, r: Sender)
    requires Reachable(s) && Next(s, l) == Some(r)
    ensures Took(s, [l], r)
  {
    LeadsOne(Next, s, l, r);
    ReachableOn(Next, Initial, s, [l], r);
  }

  lemma TookBoth(s: Sender, first: seq<Label>, r: Sender, second: seq<Label>, q: Sender)
    requires Took(s, first, r) && Took(r, second, q)
    ensures Took(s, first + second, q)
  {
    LeadsOn(Next, s, first, r, second, q);
  }

  /** What one thread does in a call: its own steps, and the notification of its close. */
  predicate Own(l: Label, t: Tid) {
    l.Notify? || ((InDoSend(l) || l.BeginSend? || l.Enqueue?) && l.t == t)
  }

  /** The answers of the kernel to the writes among the steps. */
  function Results(steps: seq<Label>): seq<WriteResult> {
    if steps == [] then []
    else (if steps[0].Write? then [steps[0].result] else []) + Results(steps[1..])
  }

  lemma {:induction false} ResultsAppend(a: seq<Label>, b: seq<Label>)
    ensures Results(a + b) == Results(a) + Results(b)
    decreases |a|
  {
    if a == [] {
      assert a + b == b;
    } else {
      assert (a + b)[1..] == a[1..] + b;
      ResultsAppend(a[1..], b);
    }
  }

  function Total(results: seq<WriteResult>): nat {
    if results == [] then 0
    else (if results[0].Wrote? then results[0].count else 0) + Total(results[1..])
  }

  lemma {:induction false} TotalAppend(a: seq<WriteResult>, b: seq<WriteResult>)
    ensures Total(a + b) == Total(a) + Total(b)
    decreases |a|
  {
    if a == [] {
      assert a + b == b;
    } else {
      assert (a + b)[1..] == a[1..] + b;
      TotalAppend(a[1..], b);
    }
  }

  /** Thread `t` made the call by these steps, in which the kernel gave these answers. */
  ghost predicate Ran(s: Sender, t: Tid, steps: seq<Label>, results: seq<WriteResult>, r: Sender) {
    Took(s, steps, r) && OwnOnly(steps, t) && Results(steps) == results
  }

  predicate OwnOnly(steps: seq<Label>, t: Tid) {
    steps == [] || (Own(steps[0], t) && OwnOnly(steps[1..], t))
  }

  lemma {:induction false} OwnOnlyAppend(a: seq<Label>, b: seq<Label>, t: Tid)
    ensures OwnOnly(a + b, t) <==> OwnOnly(a, t) && OwnOnly(b, t)
    decreases |a|
  {
    if a == [] {
      assert a + b == b;
    } else {
      assert (a + b)[1..] == a[1..] + b;
      OwnOnlyAppend(a[1..], b, t);
    }
  }

  lemma RanNothing(s: Sender, t: Tid)
    requires Reachable(s)
    ensures Ran(s, t, [], [], s)
  {
  }

  lemma RanOne(s: Sender, t: Tid, l: Label, r: Sender)
    requires Reachable(s) && Next(s, l) == Some(r) && Own(l, t)
    ensures Ran(s, t, [l], if l.Write? then [l.result] else [], r)
  {
    TookOne(s, l, r);
    assert [l][1..] == [];
  }

  lemma RanBoth(s: Sender, t: Tid, first: seq<Label>, a: seq<WriteResult>, q: Sender,
                second: seq<Label>, b: seq<WriteResult>, r: Sender)
    requires Ran(s, t, first, a, q) && Ran(q, t, second, b, r)
    ensures Ran(s, t, first + second, a + b, r)
  {
    TookBoth(s, first, q, second, r);
    ResultsAppend(first, second);
    OwnOnlyAppend(first, second, t);
  }

  lemma RanThen(s: Sender, t: Tid, first: seq<Label>, results: seq<WriteResult>, q: Sender,
                second: seq<Label>, r: Sender) returns (steps: seq<Label>)
    requires Ran(s, t, first, results, q) && Ran(q, t, second, [], r)
    ensures Ran(s, t, steps, results, r)
  {
    RanBoth(s, t, first, results, q, second, [], r);
    assert results + [] == results;
    steps := first + second;
  }

  lemma ThenRan(s: Sender, t: Tid, first: seq<Label>, q: Sender, second: seq<Label>, results: seq<WriteResult>,
                r: Sender) returns (steps: seq<Label>)
    requires Ran(s, t, first, [], q) && Ran(q, t, second, results, r)
    ensures Ran(s, t, steps, results, r)
  {
    RanBoth(s, t, first, [], q, second, results, r);
    assert [] + results == results;
    steps := first + second;
  }

  lemma RanOneMore(s: Sender, t: Tid, steps: seq<Label>, results: seq<WriteResult>, q: Sender, l: Label, r: Sender)
    requires Ran(s, t, steps, results, q) && Next(q, l) == Some(r) && Own(l, t) && !l.Write?
    ensures Ran(s, t, steps + [l], results, r)
  {
    RanOne(q, t, l, r);
    RanBoth(s, t, steps, results, q, [l], [], r);
    assert results + [] == results;
  }

  /** The kernel takes the next `n` bytes of the message in hand. */
  lemma RanWrote(s: Sender, t: Tid, n: nat) returns (r: Sender)
    requires Reachable(s) && s.open && s.At(t).Writing? && s.current.Some?
    requires 0 < n <= s.current.value.length - s.current.value.sentPos
    ensures var m := s.current.value;
            && m.Valid()
            && r == s.(current := Some(m.(sentPos := m.sentPos + n)),
                       wire := s.wire + m.data[m.sentPos..m.length][..n])
    ensures Ran(s, t, [Write(t, Wrote(n))], [Wrote(n)], r) && r.At(t).Writing?
  {
    ReachableMessage(s);
    var m := s.current.value;
    assert m.data[m.sentPos..m.length][..n] == m.data[m.sentPos..m.sentPos + n];
    r := s.(current := Some(m.(sentPos := m.sentPos + n)), wire := s.wire + m.data[m.sentPos..m.sentPos + n]);
    RanOne(s, t, Write(t, Wrote(n)), r);
  }

  /** The kernel has no room. */
  lemma RanBlocked(s: Sender, t: Tid) returns (r: Sender)
    requires Reachable(s) && s.open && s.At(t).Writing? && s.current.Some?
    requires s.current.value.sentPos < s.current.value.length
    ensures r == s.Leave(t) && Ran(s, t, [Write(t, WouldBlock)], [WouldBlock], r)
  {
    r := s.Leave(t);
    RanOne(s, t, Write(t, WouldBlock), r);
  }

  /** In any run the bytes on the wire are as many as the kernel said it took. */
  lemma {:induction false} WireCounts(s: Sender, steps: seq<Label>, r: Sender)
    requires Inv(s) && Leads(Next, s, steps, r)
    ensures s.wire <= r.wire && |r.wire| == |s.wire| + Total(Results(steps))
    decreases |steps|
  {
    if steps != [] {
      var q := Next(s, steps[0]).value;
      StepKeepsInv(s, steps[0], q);
      StepWire(s, steps[0], q);
      WireCounts(q, steps[1..], r);
      TotalAppend(if steps[0].Write? then [steps[0].result] else [], Results(steps[1..]));
    }
  }

  lemma StepWire(s: Sender, l: Label, r: Sender)
    requires Inv(s) && Next(s, l) == Some(r)
    ensures s.wire <= r.wire
    ensures |r.wire| == |s.wire| + Total(if l.Write? then [l.result] else [])
  {
    if !MovesBytes(l) {
      OtherStepsKeepBytes(s, l);
    } else if l.Write? {
      WriteWire(s, l.t, l.result, r);
      assert [l.result][1..] == [];
    }
  }

  lemma WriteWire(s: Sender, t: Tid, result: WriteResult, r: Sender)
    requires s.current.Some? && s.current.value.Valid() && Written(s, t, s.current.value, result) == Some(r)
    ensures s.wire <= r.wire && |r.wire| == |s.wire| + if result.Wrote? then result.count else 0
  {
  }

  /** A thread finds the socket open and enqueues its message, unless the queue is full. */
  lemma TookEnqueue(s: Sender, t: Tid, payload: Bytes, async: bool) returns (steps: seq<Label>, r: Sender)
    requires Reachable(s) && s.open && s.At(t).Idle? && Sendable(payload)
    ensures Ran(s, t, steps, [], r)
    ensures r == if s.queueSize >= s.limit then s.(threads := r.threads)
                 else s.(queue := s.queue + [OutMessage(Frame(payload), |Frame(payload)|, 0)],
                         queueSize := s.queueSize + |Frame(payload)|,
                         accepted := s.accepted + [payload], threads := r.threads)
    ensures r.At(t) == if s.queueSize >= s.limit || async then Idle else WantSend
  {
    var q := s.Goto(t, Checked(payload, async));
    RanOne(s, t, BeginSend(t, payload, async), q);
    r := Enqueued(q, t);
    RanOneMore(s, t, [BeginSend(t, payload, async)], [], q, Enqueue(t), r);
    steps := [BeginSend(t, payload, async)] + [Enqueue(t)];
  }

  /** A failed write closes the socket, and the close notifies. */
  lemma TookFailedWrite(s: Sender, t: Tid, w: WriteResult) returns (steps: seq<Label>, r: Sender)
    requires Reachable(s) && s.open && s.At(t).Writing?
    requires s.current.Some? && s.current.value.sentPos < s.current.value.length
    requires w.WroteNothing? || w.PeerGone? || w.WriteFailed?
    ensures Ran(s, t, steps, [w], r) && r.At(t).Idle?
    ensures r == s.(open := false, lock := None, threads := r.threads)
  {
    var q := s.Leave(t).Close();
    RanOne(s, t, Write(t, w), q);
    r := q.NotifyAll().(notifying := q.notifying - 1);
    RanOneMore(s, t, [Write(t, w)], [w], q, Notify, r);
    steps := [Write(t, w)] + [Notify];
  }

  /** The counter stays below the limit plus one largest frame, and never underflows. */
  lemma QueueSizeBound(s: Sender)
    requires Inv(s)
    ensures 0 <= s.queueSize < s.limit + U32
  {
    if s.queue != [] {
      var n := |s.queue| - 1;
      assert s.queue == s.queue[..n] + [s.queue[n]];
      QueueAppend(s.queue[..n], s.queue[n]);
    }
  }

  /** In every run: what was written, the unsent rest of the current message and the queue
      are the frames of everything accepted, in that order; the counter is the number of
      queued bytes and bounded; at most one thread is inside `do_send`; and a thread sleeps
      only while there is a reason to, unless a close failed to notify. */
  lemma NothingIsLost(limit: nat, steps: seq<Label>, t: Tid, u: Tid)
    ensures var r := Run(Next, Init(limit), steps);
            r.Some? ==>
              var s := r.value;
              && Messages(s)
              && s.wire + UnsentBytes(s.current) + QueueBytes(s.queue) == Frames(s.accepted)
              && s.queueSize == TotalLength(s.queue) < s.limit + U32
              && (Inside(s.At(t)) && Inside(s.At(u)) ==> t == u)
              && (s.At(t).Sleeping? && !s.silent ==> (s.queueSize > 0 && s.open) || s.notifying > 0)
  {
    EveryRunIsSafe(limit, steps);
    var r := Run(Next, Init(limit), steps);
    if r.Some? {
      QueueSizeBound(r.value);
    }
  }

  // ---------------------------------------------------------------- what do_send returns

  /** How a step ends `do_send`: with true (more to send), with false, or with an exception. */
  datatype Ending = More | NoMore | Threw

  function Ends(s: Sender, l: Label): Option<Ending>
    requires Next(s, l).Some?
  {
    match l
    case Dequeue(t) => if s.current.None? && s.queue == [] then Some(NoMore) else None
    case CheckOpen(t) => if s.open then None else Some(Threw)
    case Write(t, WouldBlock) => Some(More)
    case Write(t, WroteNothing) => Some(NoMore)
    case Write(t, PeerGone) => Some(NoMore)
    case Write(t, WriteFailed) => Some(Threw)
    case _ => None
  }

  /** `do_send` ends exactly when its thread gives up the send mutex. */
  lemma DoSendEndsByUnlocking(s: Sender, l: Label, r: Sender)
    requires Inv(s) && Next(s, l) == Some(r)
    ensures Ends(s, l).Some? <==> s.lock.Some? && r.lock.None?
  {
    if InDoSend(l) {
      DoSendMoves(s, l, r);
    } else {
      OtherStepsKeepLock(s, l, r);
    }
  }

  /** True means a message is partly sent; false means nothing was left or the socket is
      closed; an exception means the socket is closed.  No case drops the message in hand. */
  lemma DoSendEnds(s: Sender, l: Label, r: Sender)
    requires Inv(s) && Next(s, l) == Some(r) && Ends(s, l).Some?
    ensures Ends(s, l) == Some(More) ==> r.current.Some? && r.current.value.Unsent() != []
    ensures Ends(s, l) == Some(NoMore) ==> (r.queue == [] && r.current.None?) || !r.open
    ensures Ends(s, l) == Some(Threw) ==> !r.open
    ensures r.current == s.current && r.queue == s.queue && r.wire == s.wire
  {
    assert InDoSend(l) && DoSend(s, l) == Some(r);
  }

  ghost predicate NobodyWrites(s: Sender) {
    forall t: Tid :: !s.At(t).Writing?
  }
}
