/** Threads that wait for room in the send queue: who can still be woken, and who sleeps for
    good once the connection has been lost without a notification. */
module SendWaiters {
  import opened Runs
  import opened Framing
  import opened SendQueue

  /** Whatever happens from `s` on, thread `u` sleeps. */
  ghost predicate SleepsForGood(next: (Sender, Label) -> Option<Sender>, s: Sender, u: Tid) {
    forall steps :: Run(next, s, steps).Some? ==> Run(next, s, steps).value.At(u).Sleeping?
  }

  /** A socket as its listener uses it: `do_send` starts for an event of the descriptor or
      behind a `send` that found the socket open, so never on a closed socket. */
  function ListenerNext(s: Sender, l: Label): Option<Sender> {
    if l.BeginDoSend? && !s.open then None else Next(s, l)
  }

  /** Nothing but sending: messages are taken out and written, and no write fails. */
  function SendingNext(s: Sender, l: Label): Option<Sender> {
    if InDoSend(l) && (l.Write? ==> l.result.Wrote?) then Next(s, l)
    else if l.BeginDoSend? then ListenerNext(s, l)
    else None
  }

  lemma Restrictions()
    ensures Restricts(SendingNext, ListenerNext) && Restricts(ListenerNext, Next)
  {
  }

  // ---------------------------------------------------------------- when a wait is over

  predicate Waits(pc: Pc) {
    pc.Sleeping? || pc.Waking?
  }

  /** A wait for room ends only by looking at the queue, and then exactly if the queue is
      empty or the socket closed; otherwise the thread sleeps again. */
  lemma WaitEndsIff(s: Sender, l: Label, r: Sender, t: Tid)
    requires Inv(s) && Next(s, l) == Some(r)
    ensures Waits(s.At(t)) && !Waits(r.At(t)) ==> l == Recheck(t)
    ensures l == BeginWait(t) || l == Recheck(t) ==>
              r.At(t) == if s.queue == [] || !s.open then Idle else Sleeping
  {
    if Waits(s.At(t)) && !Waits(r.At(t)) {
      WaitEndsByLooking(s, l, r, t);
    }
  }

  lemma WaitEndsByLooking(s: Sender, l: Label, r: Sender, t: Tid)
    requires Next(s, l) == Some(r) && Waits(s.At(t)) && !Waits(r.At(t))
    ensures l == Recheck(t)
  {
  }

  // ---------------------------------------------------------------- an open socket

  lemma {:induction false} Above(ts: set<Tid>) returns (t: Tid)
    ensures forall u :: u in ts ==> u < t
    decreases ts
  {
    t := 0;
    if ts != {} {
      var u :| u in ts;
      var v := Above(ts - {u});
      t := if u < v then v else u + 1;
      assert forall w :: w in ts ==> w == u || w in ts - {u};
    }
  }

  /** Taking a message out wakes everybody. */
  lemma DequeueWakes(s: Sender, t: Tid, u: Tid)
    requires s.At(t).Top? && s.current.None? && s.queue != [] && s.At(u).Sleeping?
    ensures Next(s, Dequeue(t)) == Some(Dequeued(s, t)) && !Dequeued(s, t).At(u).Sleeping?
    ensures Dequeued(s, t).open == s.open
  {
  }

  lemma FinishedMessageWakes(s: Sender, t: Tid, u: Tid) returns (steps: seq<Label>, r: Sender)
    requires s.At(t).Writing? && s.current.Some? && s.current.value.sentPos == s.current.value.length
    requires s.queue != [] && s.At(u).Sleeping?
    ensures Leads(SendingNext, s, steps, r) && !r.At(u).Sleeping? && r.open == s.open
  {
    var q := s.Goto(t, Top).(current := None);
    LeadsOne(SendingNext, s, FinishMessage(t), q);
    DequeueWakes(q, t, u);
    r := Dequeued(q, t);
    LeadsOneMore(SendingNext, s, [FinishMessage(t)], q, Dequeue(t), r);
    steps := [FinishMessage(t)] + [Dequeue(t)];
  }

  /** A writer writes the rest of its message and takes the next. */
  lemma WriterWakes(s: Sender, t: Tid, u: Tid) returns (steps: seq<Label>, r: Sender)
    requires s.open && s.At(t).Writing? && s.current.Some? && s.current.value.Valid()
    requires s.queue != [] && s.At(u).Sleeping?
    ensures Leads(SendingNext, s, steps, r) && !r.At(u).Sleeping? && r.open
  {
    var m := s.current.value;
    if m.sentPos == m.length {
      steps, r := FinishedMessageWakes(s, t, u);
    } else {
      var n, more := m.length - m.sentPos, [];
      var q := s.(current := Some(m.(sentPos := m.length)), wire := s.wire + m.data[m.sentPos..m.length]);
      LeadsOne(SendingNext, s, Write(t, Wrote(n)), q);
      more, r := FinishedMessageWakes(q, t, u);
      LeadsOn(SendingNext, s, [Write(t, Wrote(n))], q, more, r);
      steps := [Write(t, Wrote(n))] + more;
    }
  }

  /** A thread that has a message in hand checks the socket and writes. */
  lemma HolderWakes(s: Sender, t: Tid, u: Tid) returns (steps: seq<Label>, r: Sender)
    requires s.open && s.At(t).Have? && s.current.Some? && s.current.value.Valid()
    requires s.queue != [] && s.At(u).Sleeping?
    ensures Leads(SendingNext, s, steps, r) && !r.At(u).Sleeping? && r.open
  {
    var q, more := s.Goto(t, Writing), [];
    LeadsOne(SendingNext, s, CheckOpen(t), q);
    more, r := WriterWakes(q, t, u);
    LeadsOn(SendingNext, s, [CheckOpen(t)], q, more, r);
    steps := [CheckOpen(t)] + more;
  }

  /** The owner of the send mutex goes on. */
  lemma OwnerWakes(s: Sender, t: Tid, u: Tid) returns (steps: seq<Label>, r: Sender)
    requires s.open && Inside(s.At(t)) && (!s.At(t).Top? ==> s.current.Some?)
    requires (s.current.Some? ==> s.current.value.Valid()) && s.queue != [] && s.At(u).Sleeping?
    ensures Leads(SendingNext, s, steps, r) && !r.At(u).Sleeping? && r.open
  {
    if s.At(t).Writing? {
      steps, r := WriterWakes(s, t, u);
    } else if s.At(t).Have? {
      steps, r := HolderWakes(s, t, u);
    } else if s.current.None? {
      DequeueWakes(s, t, u);
      r := Dequeued(s, t);
      LeadsOne(SendingNext, s, Dequeue(t), r);
      steps := [Dequeue(t)];
    } else {
      var q, more := s.Goto(t, Have), [];
      LeadsOne(SendingNext, s, Dequeue(t), q);
      more, r := HolderWakes(q, t, u);
      LeadsOn(SendingNext, s, [Dequeue(t)], q, more, r);
      steps := [Dequeue(t)] + more;
    }
  }

  /** Somebody who is idle starts `do_send` and gets the free send mutex. */
  lemma SomebodyLocks(s: Sender) returns (steps: seq<Label>, q: Sender, t: Tid)
    requires s.lock.None?
    ensures !s.At(t).Sleeping? && q == s.Goto(t, WantSend).Goto(t, Top).(lock := Some(t))
    ensures steps == [BeginDoSend(t)] + [LockSend(t)]
    ensures Leads(Next, s, steps, q) && (s.open ==> Leads(SendingNext, s, steps, q))
  {
    t := Above(s.threads.Keys);
    var s1 := s.Goto(t, WantSend);
    q := s1.Goto(t, Top).(lock := Some(t));
    steps := [BeginDoSend(t)] + [LockSend(t)];
    LeadsOne(Next, s, BeginDoSend(t), s1);
    LeadsOneMore(Next, s, [BeginDoSend(t)], s1, LockSend(t), q);
    if s.open {
      LeadsOne(SendingNext, s, BeginDoSend(t), s1);
      LeadsOneMore(SendingNext, s, [BeginDoSend(t)], s1, LockSend(t), q);
    }
  }

  /** While the socket is open, sending alone wakes whoever waits: no close is needed. */
  lemma SendingWakes(s: Sender, u: Tid) returns (steps: seq<Label>, r: Sender)
    requires Inv(s) && s.open && s.At(u).Sleeping?
    ensures Leads(SendingNext, s, steps, r) && !r.At(u).Sleeping? && r.open
  {
    if s.lock.Some? {
      assert Inside(s.At(s.lock.value));
      steps, r := OwnerWakes(s, s.lock.value, u);
    } else {
      var q, t, more;
      steps, q, t := SomebodyLocks(s);
      more, r := OwnerWakes(q, t, u);
      LeadsOn(SendingNext, s, steps, q, more, r);
      steps := steps + more;
    }
  }

  // ---------------------------------------------------------------- a closed socket

  /** Nobody is on the way to taking a message out. */
  ghost predicate Unattended(s: Sender) {
    forall t: Tid ::
      && !s.At(t).Top? && !s.At(t).WantSend?
      && (s.At(t).Checked? && !s.At(t).async ==> s.queueSize >= s.limit)
  }

  /** The socket is closed, nobody is going to notify, nobody writes, and the message in
      hand, or the lack of anybody to take one, keeps the queue as it is. */
  ghost predicate Abandoned(s: Sender) {
    !s.open && s.notifying == 0 && NobodyWrites(s) && (s.current.Some? || Unattended(s))
  }

  /** The same with a message in hand. */
  ghost predicate Deserted(s: Sender) {
    !s.open && s.notifying == 0 && NobodyWrites(s) && s.current.Some?
  }

  lemma StepDeserted(s: Sender, l: Label, r: Sender, u: Tid)
    requires Deserted(s) && s.At(u).Sleeping? && Next(s, l) == Some(r)
    ensures Deserted(r) && r.At(u).Sleeping?
  {
    forall t: Tid ensures !r.At(t).Writing? {
      assert !s.At(t).Writing?;
    }
  }

  lemma ThreadStaysAway(s: Sender, l: Label, r: Sender, t: Tid)
    requires !s.open && s.notifying == 0 && NobodyWrites(s) && Unattended(s) && ListenerNext(s, l) == Some(r)
    ensures !r.At(t).Writing? && !r.At(t).Top? && !r.At(t).WantSend?
    ensures r.At(t).Checked? && !r.At(t).async ==> r.queueSize >= r.limit
    ensures !r.open && r.notifying == 0 && (s.At(t).Sleeping? ==> r.At(t).Sleeping?)
  {
    assert !s.At(t).Top? && !s.At(t).Writing?;
    assert l.LockSend? || l.Dequeue? || l.Write? || l.FinishMessage? || l.Enqueue? ==>
             !s.At(l.t).Top? && !s.At(l.t).WantSend? && !s.At(l.t).Writing?;
  }

  lemma StepAbandoned(s: Sender, l: Label, r: Sender, u: Tid)
    requires Abandoned(s) && s.At(u).Sleeping? && ListenerNext(s, l) == Some(r)
    ensures Abandoned(r) && r.At(u).Sleeping?
  {
    if s.current.Some? {
      StepDeserted(s, l, r, u);
    } else {
      forall t: Tid
        ensures !r.At(t).Writing? && !r.At(t).Top? && !r.At(t).WantSend?
        ensures r.At(t).Checked? && !r.At(t).async ==> r.queueSize >= r.limit
      {
        ThreadStaysAway(s, l, r, t);
      }
      ThreadStaysAway(s, l, r, u);
    }
  }

  /** A pending notification wakes everybody. */
  lemma NotificationWakes(s: Sender, u: Tid) returns (steps: seq<Label>, r: Sender)
    requires s.notifying > 0
    ensures Leads(ListenerNext, s, steps, r) && !r.At(u).Sleeping?
  {
    r := s.NotifyAll().(notifying := s.notifying - 1);
    steps := [Notify];
    LeadsOne(ListenerNext, s, Notify, r);
  }

  lemma FailedWriteWakes(s: Sender, t: Tid, u: Tid) returns (steps: seq<Label>, r: Sender)
    requires s.At(t).Writing? && s.current.Some? && s.current.value.sentPos < s.current.value.length
    ensures Leads(ListenerNext, s, steps, r) && !r.At(u).Sleeping?
  {
    var q, more := s.Leave(t).Close(), [];
    LeadsOne(ListenerNext, s, Write(t, WriteFailed), q);
    more, r := NotificationWakes(q, u);
    LeadsOn(ListenerNext, s, [Write(t, WriteFailed)], q, more, r);
    steps := [Write(t, WriteFailed)] + more;
  }

  /** A thread that has locked, or is about to, takes the next message. */
  lemma AttendantWakes(s: Sender, t: Tid, u: Tid) returns (steps: seq<Label>, r: Sender)
    requires Locked(s) && s.current.None? && s.queue != [] && s.At(u).Sleeping?
    requires s.At(t).Top? || s.At(t).WantSend?
    ensures Leads(ListenerNext, s, steps, r) && !r.At(u).Sleeping?
  {
    if s.At(t).WantSend? && s.lock.None? {
      var q := s.Goto(t, Top).(lock := Some(t));
      LeadsOne(ListenerNext, s, LockSend(t), q);
      DequeueWakes(q, t, u);
      r := Dequeued(q, t);
      LeadsOneMore(ListenerNext, s, [LockSend(t)], q, Dequeue(t), r);
      steps := [LockSend(t)] + [Dequeue(t)];
    } else {
      var o := s.lock.value;
      assert Inside(s.At(o));
      DequeueWakes(s, o, u);
      r := Dequeued(s, o);
      LeadsOne(ListenerNext, s, Dequeue(o), r);
      steps := [Dequeue(o)];
    }
  }

  /** A thread that found the socket open in time enqueues its message, and then sends. */
  lemma LateSenderWakes(s: Sender, t: Tid, u: Tid) returns (steps: seq<Label>, r: Sender)
    requires Inv(s) && s.current.None? && s.At(u).Sleeping?
    requires s.At(t).Checked? && !s.At(t).async && s.queueSize < s.limit
    ensures Leads(ListenerNext, s, steps, r) && !r.At(u).Sleeping?
  {
    assert Sendable(s.At(t).payload);
    var q, more := Enqueued(s, t), [];
    LeadsOne(ListenerNext, s, Enqueue(t), q);
    StepLocks(s, Enqueue(t), q);
    more, r := AttendantWakes(q, t, u);
    LeadsOn(ListenerNext, s, [Enqueue(t)], q, more, r);
    steps := [Enqueue(t)] + more;
  }

  /** Otherwise some continuation wakes the thread. */
  lemma ListenerCanWake(s: Sender, u: Tid) returns (steps: seq<Label>, r: Sender)
    requires Inv(s) && s.At(u).Sleeping? && !Abandoned(s)
    ensures Leads(ListenerNext, s, steps, r) && !r.At(u).Sleeping?
  {
    Restrictions();
    if s.notifying > 0 {
      steps, r := NotificationWakes(s, u);
    } else if s.open {
      steps, r := SendingWakes(s, u);
      LeadsInBig(SendingNext, ListenerNext, s, steps, r);
    } else if !NobodyWrites(s) {
      var t: Tid :| s.At(t).Writing?;
      if s.current.value.sentPos < s.current.value.length {
        steps, r := FailedWriteWakes(s, t, u);
      } else {
        steps, r := FinishedMessageWakes(s, t, u);
        LeadsInBig(SendingNext, ListenerNext, s, steps, r);
      }
    } else {
      var t: Tid :| s.At(t).Top? || s.At(t).WantSend?
                    || (s.At(t).Checked? && !s.At(t).async && s.queueSize < s.limit);
      if s.At(t).Checked? {
        steps, r := LateSenderWakes(s, t, u);
      } else {
        steps, r := AttendantWakes(s, t, u);
      }
    }
  }

  /** With `do_send` called at any time, a message in hand is the only obstacle. */
  lemma CanWake(s: Sender, u: Tid) returns (steps: seq<Label>, r: Sender)
    requires Inv(s) && s.At(u).Sleeping? && !Deserted(s)
    ensures Leads(Next, s, steps, r) && !r.At(u).Sleeping?
  {
    if !Abandoned(s) {
      steps, r := ListenerCanWake(s, u);
      Restrictions();
      LeadsInBig(ListenerNext, Next, s, steps, r);
    } else {
      assert s.lock.Some? ==> Inside(s.At(s.lock.value));
      var q, t;
      steps, q, t := SomebodyLocks(s);
      DequeueWakes(q, t, u);
      r := Dequeued(q, t);
      LeadsOneMore(Next, s, steps, q, Dequeue(t), r);
      steps := steps + [Dequeue(t)];
    }
  }

  lemma InvariantMeansForGood(next: (Sender, Label) -> Option<Sender>, inv: Sender -> bool, s: Sender, u: Tid)
    requires Preserves(next, inv) && inv(s) && (forall q :: inv(q) ==> q.At(u).Sleeping?)
    ensures SleepsForGood(next, s, u)
  {
    forall steps | Run(next, s, steps).Some? ensures Run(next, s, steps).value.At(u).Sleeping? {
      InvariantAlongRun(next, inv, s, steps);
    }
  }

  /** A listener's thread that waits for room sleeps for good exactly if the socket is
      closed, nobody is going to notify, nobody writes, and either a message is in hand or
      nobody is on the way to taking one out of the queue. */
  lemma SleepsForGoodIff(s: Sender, u: Tid)
    requires Inv(s) && s.At(u).Sleeping?
    ensures SleepsForGood(ListenerNext, s, u) <==> Abandoned(s)
  {
    if Abandoned(s) {
      var lost := (s: Sender) => Abandoned(s) && s.At(u).Sleeping?;
      forall s, l | lost(s) && ListenerNext(s, l).Some? ensures lost(ListenerNext(s, l).value) {
        StepAbandoned(s, l, ListenerNext(s, l).value, u);
      }
      InvariantMeansForGood(ListenerNext, lost, s, u);
    } else {
      var steps, r := ListenerCanWake(s, u);
      assert Run(ListenerNext, s, steps) == Some(r);
    }
  }

  /** For users of the socket who call `do_send` at any time, also on a closed socket, a
      message in hand is needed for that. */
  lemma AnyUserSleepsForGoodIff(s: Sender, u: Tid)
    requires Inv(s) && s.At(u).Sleeping?
    ensures SleepsForGood(Next, s, u) <==> Deserted(s)
  {
    if Deserted(s) {
      var lost := (s: Sender) => Deserted(s) && s.At(u).Sleeping?;
      forall s, l | lost(s) && Next(s, l).Some? ensures lost(Next(s, l).value) {
        StepDeserted(s, l, Next(s, l).value, u);
      }
      InvariantMeansForGood(Next, lost, s, u);
    } else {
      var steps, r := CanWake(s, u);
      assert Run(Next, s, steps) == Some(r);
    }
  }

  // ---------------------------------------------------------------- the close that does not notify

  /** Losing the connection without notifying condemns a listener's waiting thread exactly
      if nobody is writing and either a message is in hand or nobody is on the way to
      taking one; and that of any user exactly in the first case. */
  lemma SilentCloseStrands(s: Sender, r: Sender, u: Tid)
    requires Inv(s) && s.At(u).Sleeping? && Next(s, CloseNotConnected) == Some(r)
    ensures SleepsForGood(ListenerNext, r, u) <==> NobodyWrites(s) && (s.current.Some? || Unattended(s))
    ensures SleepsForGood(Next, r, u) <==> NobodyWrites(s) && s.current.Some?
  {
    StepKeepsInv(s, CloseNotConnected, r);
    SleepsForGoodIff(r, u);
    AnyUserSleepsForGoodIff(r, u);
    assert forall t: Tid :: r.At(t) == s.At(t);
  }

  /** In every run without such a close, every waiting thread can still be woken. */
  lemma OnlySilentClosesStrand(limit: nat, steps: seq<Label>, u: Tid)
    ensures var s := Run(Next, Init(limit), steps);
            s.Some? && s.value.At(u).Sleeping? && SleepsForGood(ListenerNext, s.value, u) ==> s.value.silent
  {
    EveryRunIsSafe(limit, steps);
    var s := Run(Next, Init(limit), steps);
    if s.Some? && s.value.At(u).Sleeping? {
      SleepsForGoodIff(s.value, u);
    }
  }

  /** It happens to a listener: a message fills the queue, a thread waits for room, and a
      shutdown finds the connection gone before anybody has started to send. */
  lemma ListenerCanStrand() returns (steps: seq<Label>, r: Sender)
    ensures Leads(ListenerNext, Init(1), steps, r) && r.At(2).Sleeping?
    ensures SleepsForGood(ListenerNext, r, 2) && !SleepsForGood(Next, r, 2)
  {
    var s0, q, more := Init(1), Init(1), [];
    steps, q := FillsQueue(s0, [7], true);
    Restrictions();
    assert Leads(Next, s0, steps, q) by { LeadsInBig(ListenerNext, Next, s0, steps, q); }
    EveryRunIsSafe(1, steps);
    more, r := WaitsInVain(q);
    LeadsOn(ListenerNext, s0, steps, q, more, r);
    steps := steps + more;
  }

  /** It happens to any user: a message is partly written when the kernel has no more room,
      another message fills the queue, a thread waits for room, and a shutdown finds the
      connection gone. */
  lemma WaiterCanBeStranded() returns (steps: seq<Label>, r: Sender)
    ensures Leads(ListenerNext, Init(1), steps, r) && r.At(2).Sleeping? && SleepsForGood(Next, r, 2)
  {
    var s1, s2, more;
    steps, s1 := PartlySent();
    more, s2 := FillsQueue(s1, [8], true);
    LeadsOn(ListenerNext, Init(1), steps, s1, more, s2);
    steps := steps + more;
    Restrictions();
    assert Leads(Next, Init(1), steps, s2) by { LeadsInBig(ListenerNext, Next, Init(1), steps, s2); }
    EveryRunIsSafe(1, steps);
    more, r := WaitsInVain(s2);
    LeadsOn(ListenerNext, Init(1), steps, s2, more, r);
    steps := steps + more;
  }

  lemma NobodyActs(s: Sender)
    requires s.threads == map[1 := Idle, 2 := Sleeping]
    ensures s.At(2).Sleeping? && NobodyWrites(s) && Unattended(s)
  {
  }

  lemma WaitsInVain(s: Sender) returns (steps: seq<Label>, r: Sender)
    requires Inv(s) && s.open && s.queueSize > 0 && s.threads == map[1 := Idle]
    ensures Leads(ListenerNext, s, steps, r) && r.At(2).Sleeping?
    ensures SleepsForGood(ListenerNext, r, 2) && (SleepsForGood(Next, r, 2) <==> s.current.Some?)
  {
    var q := s.Goto(2, Sleeping);
    LeadsOne(ListenerNext, s, BeginWait(2), q);
    StepKeepsInv(s, BeginWait(2), q);
    NobodyActs(q);
    r := q.(open := false, silent := true);
    LeadsOneMore(ListenerNext, s, [BeginWait(2)], q, CloseNotConnected, r);
    steps := [BeginWait(2)] + [CloseNotConnected];
    SilentCloseStrands(q, r, 2);
  }

  lemma PartlySent() returns (steps: seq<Label>, r: Sender)
    ensures Leads(ListenerNext, Init(1), steps, r)
    ensures r.open && r.queueSize == 0 && r.limit == 1 && r.current.Some? && r.threads == map[1 := Idle]
  {
    var s0, q, more := Init(1), Init(1), [];
    steps, q := FillsQueue(s0, [7], false);
    more, r := WritesTwoBytes(q);
    LeadsOn(ListenerNext, s0, steps, q, more, r);
    steps := steps + more;
  }

  lemma FillsQueue(s: Sender, payload: Bytes, async: bool) returns (steps: seq<Label>, r: Sender)
    requires s.open && s.queueSize == 0 && s.limit == 1 && Sendable(payload)
    requires s.threads == map[] || s.threads == map[1 := Idle]
    ensures Leads(ListenerNext, s, steps, r)
    ensures var m := OutMessage(Frame(payload), |Frame(payload)|, 0);
            r == s.(queue := s.queue + [m], queueSize := m.length, accepted := s.accepted + [payload],
                    threads := map[1 := if async then Idle else WantSend])
  {
    var q := s.Goto(1, Checked(payload, async));
    LeadsOne(ListenerNext, s, BeginSend(1, payload, async), q);
    r := Enqueued(q, 1);
    LeadsOneMore(ListenerNext, s, [BeginSend(1, payload, async)], q, Enqueue(1), r);
    steps := [BeginSend(1, payload, async)] + [Enqueue(1)];
  }

  lemma WritesTwoBytes(s: Sender) returns (steps: seq<Label>, r: Sender)
    requires s.open && s.lock.None? && s.current.None? && s.threads == map[1 := WantSend]
    requires |s.queue| == 1 && s.queue[0].Valid() && s.queue[0].sentPos == 0 && s.queue[0].length > 2
    requires s.queueSize == s.queue[0].length
    ensures Leads(ListenerNext, s, steps, r)
    ensures r.open && r.queueSize == 0 && r.limit == s.limit && r.threads == map[1 := Idle]
    ensures r.current == Some(s.queue[0].(sentPos := 2))
  {
    var m := s.queue[0];
    var s1 := s.Goto(1, Top).(lock := Some(1));
    LeadsOne(ListenerNext, s, LockSend(1), s1);
    var s2 := s1.(threads := map[1 := Have], current := Some(m), queueSize := 0, queue := []);
    assert s1.NotifyAll().Goto(1, Have).threads == s2.threads && s1.queue[1..] == [];
    LeadsOneMore(ListenerNext, s, [LockSend(1)], s1, Dequeue(1), s2);
    steps := [LockSend(1)] + [Dequeue(1)];
    var more;
    more, r := ThenBlocks(s2, m);
    LeadsOn(ListenerNext, s, steps, s2, more, r);
    steps := steps + more;
  }

  lemma ThenBlocks(s: Sender, m: OutMessage) returns (steps: seq<Label>, r: Sender)
    requires s.open && s.current == Some(m) && s.threads == map[1 := Have]
    requires m.Valid() && m.sentPos == 0 && m.length > 2
    ensures Leads(ListenerNext, s, steps, r)
    ensures r == s.(threads := map[1 := Idle], lock := None, current := Some(m.(sentPos := 2)), wire := r.wire)
  {
    var s1 := s.(threads := map[1 := Writing]);
    assert s.Goto(1, Writing).threads == s1.threads;
    LeadsOne(ListenerNext, s, CheckOpen(1), s1);
    var s2 := s1.(current := Some(m.(sentPos := 2)), wire := s.wire + m.data[0..2]);
    LeadsOneMore(ListenerNext, s, [CheckOpen(1)], s1, Write(1, Wrote(2)), s2);
    steps := [CheckOpen(1)] + [Write(1, Wrote(2))];
    r := s2.(threads := map[1 := Idle], lock := None);
    assert s2.Leave(1) == r;
    LeadsOneMore(ListenerNext, s, steps, s2, Write(1, WouldBlock), r);
    steps := steps + [Write(1, WouldBlock)];
  }
}
