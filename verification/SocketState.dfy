/** The life cycle of a TCP socket: its state field and its descriptor. */
module SocketState {
  import opened Runs

  datatype State = Listening | Connected | Shutdown | Closed | Unknown

  /** `shutdown` either works or reports ENOTCONN; the program gives up on anything else. */
  datatype ShutdownResult = ShutdownDone | NotConnected

  datatype Sock = Sock(state: State, fd: int) {
    predicate IsValid() { fd > 0 }

    /** A state that claims a descriptor has one. */
    predicate Healthy() {
      state.Listening? || state.Connected? || state.Shutdown? ==> IsValid()
    }

    /** A socket that has not been opened, or has been closed again. */
    predicate Reusable() {
      state.Unknown? || state.Closed?
    }

    /** `close` would find a state that claims a descriptor and no descriptor, and give up. */
    predicate CloseAborts(fast: bool) {
      !(state.Connected? && !fast) && !IsValid() && !Reusable()
    }

    function Close(fast: bool, result: ShutdownResult): Sock {
      if state.Connected? && !fast then
        if result.NotConnected? then Sock(Closed, -1) else Sock(Shutdown, fd)
      else if IsValid() then Sock(Closed, -1)
      else this
    }

    /** What `close` returns: whether the socket was closed right away. */
    predicate ClosesNow(fast: bool, result: ShutdownResult) {
      state.Connected? && !fast ==> result.NotConnected?
    }
  }

  /** Calls with the answers of the kernel: the new descriptor and whether bind, listen
      and connect succeeded. */
  datatype Label =
    | Listen(fd: int, bound: bool, listening: bool)
    | Connect(fd: int, bound: bool, connected: bool, result: ShutdownResult)
    | Close(fast: bool, result: ShutdownResult)

  function Apply(s: Sock, l: Label): Sock {
    match l
    case Listen(fd, bound, listening) =>
      if fd > 0 && bound && listening then Sock(Listening, fd) else Sock(s.state, fd)
    case Connect(fd, bound, connected, result) =>
      if fd > 0 && bound then
        if connected then Sock(Connected, fd) else Sock(s.state, fd).Close(false, result)
      else Sock(s.state, fd)
    case Close(fast, result) => s.Close(fast, result)
  }

  /** Runs in which sockets are opened only when fresh or closed, and `close` does not give up. */
  function Next(s: Sock, l: Label): Option<Sock> {
    if (if l.Close? then s.CloseAborts(l.fast) else !s.Reusable()) then None else Some(Apply(s, l))
  }

  predicate Healthy(s: Sock) { s.Healthy() }

  /** A state is entered only by the call that it is named after, when that succeeds; a
      socket that is opened has the descriptor the kernel gave it, and a shutdown keeps it. */
  lemma StatesAreEnteredBy(s: Sock, l: Label, r: Sock)
    requires Next(s, l) == Some(r) && r.state != s.state
    ensures r.state.Listening? <==> l.Listen? && l.fd > 0 && l.bound && l.listening
    ensures r.state.Connected? <==> l.Connect? && l.fd > 0 && l.bound && l.connected
    ensures r.state.Shutdown? <==> s.state.Connected? && l.Close? && !l.fast && l.result.ShutdownDone?
    ensures r.state.Listening? || r.state.Connected? ==> r.fd == l.fd
    ensures r.state.Shutdown? ==> r.fd == s.fd
    ensures !r.state.Unknown? && (r.state.Closed? ==> r.fd == -1)
  {
  }

  /** And each call enters its state. */
  lemma CallsEnterStates(s: Sock, fd: int)
    requires s.Reusable() && fd > 0
    ensures Next(s, Listen(fd, true, true)) == Some(Sock(Listening, fd))
    ensures Next(s, Connect(fd, true, true, ShutdownDone)) == Some(Sock(Connected, fd))
    ensures Next(Sock(Connected, fd), Close(false, ShutdownDone)) == Some(Sock(Shutdown, fd))
    ensures Next(Sock(Connected, fd), Close(false, NotConnected)) == Some(Sock(Closed, -1))
    ensures forall st: State, result ::
              st != Connected ==> Next(Sock(st, fd), Close(false, result)) == Some(Sock(Closed, -1))
    ensures forall st: State, result :: Next(Sock(st, fd), Close(true, result)) == Some(Sock(Closed, -1))
  {
  }

  /** An opening that fails leaves a descriptor behind exactly if one was created and it was
      not the connecting itself that failed: a failed connect closes it, a failed bind or
      listen does not.  Closing the socket then does. */
  lemma FailedOpeningLeaves(s: Sock, l: Label, r: Sock)
    requires s.Reusable() && !s.IsValid() && Next(s, l) == Some(r) && !l.Close?
    requires !r.state.Listening? && !r.state.Connected?
    ensures r.IsValid() <==> l.fd > 0 && (l.Listen? || !l.bound)
    ensures r.IsValid() ==> r == Sock(s.state, l.fd) && r.Close(false, ShutdownDone) == Sock(Closed, -1)
    ensures l.Connect? && l.fd > 0 && l.bound ==> r == Sock(Closed, -1)
  {
  }

  const FRESH := Sock(Unknown, -1)

  /** In every run the states that need a descriptor have one, so `close` can always be
      called: it never gives up on an invalid state. */
  lemma CloseNeverAborts(s: Sock, steps: seq<Label>, fast: bool)
    requires s == FRESH || (s.state.Connected? && s.IsValid())
    ensures var r := Run(Next, s, steps); r.Some? ==> r.value.Healthy() && !r.value.CloseAborts(fast)
  {
    InvariantAlongRun(Next, Healthy, s, steps);
  }

  /** A socket that was accepted is safe in that sense exactly if its descriptor is not 0:
      descriptor 0 is accepted but does not count as valid, so that even the destructor,
      which closes fast, gives up on it. */
  lemma AcceptedSafeIff(fd: nat)
    ensures CloseIsAlwaysSafe(Sock(Connected, fd)) <==> fd > 0
  {
    var s := Sock(Connected, fd);
    if fd > 0 {
      forall steps | Run(Next, s, steps).Some? ensures CloseIsSafe(Run(Next, s, steps).value) {
        CloseNeverAborts(s, steps, true);
        CloseNeverAborts(s, steps, false);
      }
    } else {
      assert Run(Next, s, []) == Some(s) && !CloseIsSafe(s);
    }
  }

  predicate CloseIsSafe(s: Sock) {
    !s.CloseAborts(true) && !s.CloseAborts(false)
  }

  /** Whatever is done with the socket before, as long as the rule is kept. */
  ghost predicate CloseIsAlwaysSafe(s: Sock) {
    forall steps :: Run(Next, s, steps).Some? ==> CloseIsSafe(Run(Next, s, steps).value)
  }

  /** The rule is needed: opening is safe whatever the kernel answers exactly when the
      socket is fresh or closed. */
  lemma OpeningIsSafeWhenReusable(s: Sock)
    requires s.Healthy()
    ensures s.Reusable() <==> forall l: Label :: !l.Close? ==> Apply(s, l).Healthy()
  {
    assert !s.Reusable() ==> !Apply(s, Listen(-1, false, false)).Healthy();
  }

  /** Two calls close any healthy socket, however the kernel answers. */
  lemma TwoCallsClose(s: Sock, fast1: bool, r1: ShutdownResult, fast2: bool, r2: ShutdownResult)
    requires s.Healthy()
    ensures var s' := s.Close(fast1, r1);
            && !s'.CloseAborts(fast2) && s'.ClosesNow(fast2, r2)
            && s'.Close(fast2, r2).Reusable() && !s'.Close(fast2, r2).IsValid()
    ensures s.ClosesNow(fast1, r1) <==> !s.Close(fast1, r1).IsValid()
  {
  }
}
