/** What a listener sees of `do_send`: the runs of the send queue, with bytes reduced to
    their number, end in the outcomes that the listener's transition system allows. */
module SendOutcome {
  import opened Runs
  import SendQueue
  import WriteInterest

  /** Unsent bytes of the message in hand. */
  function InFlight(s: SendQueue.Sender): nat
    requires SendQueue.Messages(s)
  {
    |SendQueue.UnsentBytes(s.current)|
  }

  /** The send queue while a listener's mutex keeps other senders away: nothing is enqueued,
      but sockets are closed, threads wait and are notified. */
  function Next(s: SendQueue.Sender, l: SendQueue.Label): Option<SendQueue.Sender> {
    if l.Enqueue? then None else SendQueue.Next(s, l)
  }

  /** What is left of what there was at `s`; nothing has gone out of a closed socket. */
  ghost predicate Since(s: SendQueue.Sender, q: SendQueue.Sender)
    requires SendQueue.Messages(s)
  {
    && SendQueue.Inv(q) && (q.open ==> s.open)
    && q.queueSize <= s.queueSize && q.queueSize + InFlight(q) <= s.queueSize + InFlight(s)
    && (!s.open ==> SendQueue.NobodyWrites(q) && q.queueSize + InFlight(q) == s.queueSize + InFlight(s))
  }

  lemma DequeueCounts(q: SendQueue.Sender, t: SendQueue.Tid)
    requires SendQueue.Messages(q)
    ensures var r := SendQueue.Dequeued(q, t);
            && SendQueue.Messages(r) && r.open == q.open && r.queueSize <= q.queueSize
            && r.queueSize + InFlight(r) == q.queueSize + InFlight(q)
  {
  }

  lemma WriteCounts(q: SendQueue.Sender, t: SendQueue.Tid, w: SendQueue.WriteResult, r: SendQueue.Sender)
    requires SendQueue.Messages(q) && q.current.Some?
    requires SendQueue.Written(q, t, q.current.value, w) == Some(r)
    ensures SendQueue.Messages(r) && r.queueSize == q.queueSize && InFlight(r) <= InFlight(q)
    ensures r.open ==> q.open
  {
  }

  /** A step other than enqueueing moves bytes out of the queue and out of the socket. */
  lemma StepCounts(q: SendQueue.Sender, l: SendQueue.Label, r: SendQueue.Sender)
    requires SendQueue.Messages(q) && SendQueue.Messages(r) && Next(q, l) == Some(r)
    ensures r.queueSize <= q.queueSize && r.queueSize + InFlight(r) <= q.queueSize + InFlight(q)
    ensures !l.Write? && !l.FinishMessage? ==> r.queueSize + InFlight(r) == q.queueSize + InFlight(q)
    ensures r.open ==> q.open
  {
    if !SendQueue.MovesBytes(l) {
      SendQueue.OtherStepsKeepBytes(q, l);
    } else {
      match l
      case Dequeue(t) => DequeueCounts(q, t);
      case Write(t, w) => WriteCounts(q, t, w, r);
      case _ =>
    }
  }

  lemma StepWriters(q: SendQueue.Sender, l: SendQueue.Label, r: SendQueue.Sender)
    requires !q.open && SendQueue.NobodyWrites(q) && Next(q, l) == Some(r)
    ensures SendQueue.NobodyWrites(r) && !l.Write? && !l.FinishMessage?
  {
    forall t: SendQueue.Tid ensures !r.At(t).Writing? {
      assert !q.At(t).Writing?;
    }
  }

  lemma StepSince(s: SendQueue.Sender, q: SendQueue.Sender, l: SendQueue.Label, r: SendQueue.Sender)
    requires SendQueue.Messages(s) && Since(s, q) && Next(q, l) == Some(r)
    ensures Since(s, r)
  {
    SendQueue.StepKeepsInv(q, l, r);
    StepCounts(q, l, r);
    if !s.open {
      StepWriters(q, l, r);
    }
  }

  lemma RunSince(s: SendQueue.Sender, steps: seq<SendQueue.Label>, q: SendQueue.Sender)
    requires SendQueue.Inv(s) && SendQueue.NobodyWrites(s) && Leads(Next, s, steps, q)
    ensures Since(s, q)
  {
    var since := (q: SendQueue.Sender) => Since(s, q);
    forall q, l | since(q) && Next(q, l).Some? ensures since(Next(q, l).value) {
      StepSince(s, q, l, Next(q, l).value);
    }
    InvariantAlongRun(Next, since, s, steps);
  }

  /** The listener's view of the socket. */
  ghost predicate Views(c: WriteInterest.Core, s: SendQueue.Sender)
    requires SendQueue.Messages(s)
  {
    c.queued == s.queueSize && c.inFlight == InFlight(s) && c.IsValid() == s.open
  }

  /** Which outcome an ending of `do_send` is. */
  function OutcomeOf(e: SendQueue.Ending, drained: bool, queued: nat, inFlight: nat): WriteInterest.Outcome {
    match e
    case More => WriteInterest.More(queued, inFlight)
    case NoMore => if drained then WriteInterest.Drained else WriteInterest.Died(queued, inFlight)
    case Threw => WriteInterest.Threw(queued, inFlight)
  }

  /** How `do_send` leaves what is in hand. */
  lemma EndingLeaves(q: SendQueue.Sender, l: SendQueue.Label, r: SendQueue.Sender)
    requires SendQueue.Inv(q) && SendQueue.Next(q, l) == Some(r) && SendQueue.Ends(q, l).Some?
    ensures r.current == q.current && r.queue == q.queue && r.queueSize == q.queueSize
    ensures if l.Dequeue? then r.queue == [] && r.current.None? && SendQueue.Ends(q, l) == Some(SendQueue.NoMore)
            else r.current.Some? && r.current.value.Unsent() != []
    ensures SendQueue.Ends(q, l) == Some(SendQueue.More) ==> q.open && r.open
    ensures SendQueue.Ends(q, l) == Some(SendQueue.NoMore) && !l.Dequeue? ==> q.open && !r.open
    ensures SendQueue.Ends(q, l) == Some(SendQueue.Threw) ==> !r.open
  {
    SendQueue.DoSendEnds(q, l, r);
    if l.CheckOpen? {
      assert q.lock == Some(l.t) by { assert SendQueue.Inside(q.At(l.t)); }
    }
  }

  /** `do_send` starts in `s`, where the listener sees `c`, and ends with step `l` from `q`
      to `r`.  Its result is one of the outcomes that are possible at `c`, and leaves the
      listener with what it then sees: the bytes exactly, and a closed socket at most
      because of a close by somebody else in between. */
  lemma DoSendIsPossible(s: SendQueue.Sender, steps: seq<SendQueue.Label>, q: SendQueue.Sender, l: SendQueue.Label,
                         r: SendQueue.Sender, c: WriteInterest.Core) returns (o: WriteInterest.Outcome)
    requires SendQueue.Inv(s) && SendQueue.NobodyWrites(s) && Views(c, s)
    requires Leads(Next, s, steps, q) && Next(q, l) == Some(r) && SendQueue.Ends(q, l).Some?
    ensures WriteInterest.Possible(c, o)
    ensures SendQueue.Inv(r) && var e, c' := SendQueue.Ends(q, l).value, WriteInterest.AfterDoSend(c, o);
            && (e.More? <==> o.More?) && (e.NoMore? <==> o.Drained? || o.Died?) && (e.Threw? <==> o.Threw?)
            && c'.queued == r.queueSize && c'.inFlight == InFlight(r) && (!c'.IsValid() ==> !r.open)
  {
    RunSince(s, steps, q);
    SendQueue.StepKeepsInv(q, l, r);
    EndingLeaves(q, l, r);
    o := OutcomeOf(SendQueue.Ends(q, l).value, l.Dequeue?, r.queueSize, InFlight(r));
  }
}
