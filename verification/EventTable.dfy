/** The table of event listeners: registration, the two-phase close of each listener with
    its disconnect callback, and `stop`, which closes listeners until the table is empty.
    The table is keyed by descriptor numbers, which the kernel reuses. */
module EventTable {
  import opened Runs
  import SocketState

  datatype Kind = Connection | Acceptor | Timer

  /** A connected socket, any other valid descriptor, or none. */
  datatype Phase = Connected | Open | Gone

  datatype Listener = Listener(
    kind: Kind,
    fileno: int,           // the descriptor it is registered under, kept after the close
    phase: Phase,
    disconnected: bool,    // m_has_disconnected
    disconnects: nat,      // calls of on_disconnect
    registered: bool)      // has been entered into the table
  {
    /** Closing it will still remove an entry. */
    predicate Active() {
      if kind.Timer? then !phase.Gone? else !disconnected
    }
  }

  type Id = nat

  datatype Table = Table(entries: map<int, Id>, listeners: map<Id, Listener>) {
    predicate Registered(id: Id) {
      id in listeners && listeners[id].registered
    }

    predicate InTable(id: Id) {
      id in listeners && listeners[id].fileno in entries && entries[listeners[id].fileno] == id
    }

    function Update(id: Id, l: Listener): Table {
      this.(listeners := listeners[id := l])
    }

    /** Removes whatever is entered under the descriptor number. */
    function Unregister(fileno: int): Table {
      this.(entries := entries - {fileno})
    }
  }

  /** `close_socket`, taken as one step.  `lost` says that shutting a connected socket
      down finds the connection gone. */
  function CloseListener(t: Table, id: Id, lost: bool): Table
    requires id in t.listeners
  {
    var l := t.listeners[id];
    if l.kind.Timer? then
      if l.phase.Gone? then t
      else t.Update(id, l.(phase := Gone)).Unregister(l.fileno)
    else if l.phase.Connected? && !lost then t.Update(id, l.(phase := Open))
    else if l.disconnected then t.Update(id, l.(phase := Gone))
    else
      t.Update(id, l.(phase := Gone, disconnected := true,
                      disconnects := l.disconnects + if l.kind.Connection? then 1 else 0))
      .Unregister(l.fileno)
  }

  /** How the table sees a socket. */
  function PhaseOf(sock: SocketState.Sock): Phase {
    if !sock.IsValid() then Gone else if sock.state.Connected? then Connected else Open
  }

  /** Closing a network listener closes its socket if it is still valid; once it is not, the
      listener has disconnected and left the table, the first time only. */
  lemma CloseFollowsSocket(t: Table, id: Id, sock: SocketState.Sock, result: SocketState.ShutdownResult)
    requires id in t.listeners && !t.listeners[id].kind.Timer? && ListenerSound(t.listeners[id])
    requires sock.Healthy() && t.listeners[id].phase == PhaseOf(sock)
    ensures var l, r := t.listeners[id], CloseListener(t, id, result.NotConnected?);
            var sock' := if sock.IsValid() then sock.Close(false, result) else sock;
            var first := !sock'.IsValid() && !l.disconnected;
            && r.listeners.Keys == t.listeners.Keys
            && r.listeners[id] == l.(phase := PhaseOf(sock'), disconnected := l.disconnected || first,
                                     disconnects := l.disconnects + if first && l.kind.Connection? then 1 else 0)
            && r.entries == (if first then t.entries - {l.fileno} else t.entries)
            && (forall other :: other in t.listeners && other != id ==> r.listeners[other] == t.listeners[other])
  {
  }

  /** So a connection takes two calls, unless it is found lost: the first neither calls back
      nor takes the entry away, the second does both. */
  lemma ConnectionClosesInTwo(t: Table, id: Id, lost: bool)
    requires Sound(t) && t.InTable(id) && t.listeners[id].phase.Connected?
    ensures var q := CloseListener(t, id, false);
            && q.entries == t.entries && q.listeners[id].disconnects == 0 && q.listeners[id].phase.Open?
            && var r := CloseListener(q, id, lost);
               r.entries == t.entries - {t.listeners[id].fileno} && r.listeners[id].phase.Gone?
               && r.listeners[id].disconnects == if t.listeners[id].kind.Connection? then 1 else 0
    ensures CloseListener(t, id, true).entries == t.entries - {t.listeners[id].fileno}
  {
    assert ListenerSound(t.listeners[id]);
  }

  datatype Label =
    | Create(id: Id, kind: Kind, fileno: int, phase: Phase)
    | Register(id: Id)
    | Die(id: Id)                      // reading or writing closed the socket
    | Close(id: Id, lost: bool)

  const EMPTY := Table(map[], map[])

  /** What the program does.  The descriptor of a timer may fail to be created; it is then
      -1, and the timer as good as closed.  Registration waits until its descriptor number is free; any
      listener can be closed at any time. */
  function Next(t: Table, l: Label): Option<Table> {
    match l
    case Create(id, kind, fileno, phase) =>
      if id !in t.listeners && (if kind.Timer? then phase.Open? || (phase.Gone? && fileno == -1) else !phase.Gone?)
      then Some(t.Update(id, Listener(kind, fileno, phase, false, 0, false))) else None
    case Register(id) =>
      if id in t.listeners && t.listeners[id].fileno !in t.entries
      then
        var n := t.listeners[id];
        Some(t.Update(id, n.(registered := true)).(entries := t.entries[n.fileno := id]))
      else None
    case Die(id) =>
      if id in t.listeners && !t.listeners[id].kind.Timer?
      then Some(t.Update(id, t.listeners[id].(phase := Gone))) else None
    case Close(id, lost) =>
      if id in t.listeners then Some(CloseListener(t, id, lost)) else None
  }

  /** The rules for using it: a listener is registered once, with a descriptor and before it
      is closed for good, and closed only once it is registered. */
  predicate Orderly(t: Table, l: Label) {
    match l
    case Register(id) => id in t.listeners && !t.Registered(id) && t.listeners[id].Active()
    case Close(id, _) => t.Registered(id)
    case _ => true
  }

  function OrderlyNext(t: Table, l: Label): Option<Table> {
    if Orderly(t, l) then Next(t, l) else None
  }

  // ---------------------------------------------------------------- what always holds

  predicate ListenerSound(l: Listener) {
    && (l.kind.Timer? ==> !l.phase.Connected? && !l.disconnected)
    && (l.disconnected ==> l.phase.Gone?)
    && l.disconnects == (if l.disconnected && l.kind.Connection? then 1 else 0)
  }

  /** Every entry is that of a listener with that number, and the disconnect callback has
      come once exactly if the flag is set. */
  ghost predicate Sound(t: Table) {
    && (forall fd :: fd in t.entries ==> t.entries[fd] in t.listeners && t.listeners[t.entries[fd]].fileno == fd)
    && (forall id :: id in t.listeners ==> ListenerSound(t.listeners[id]))
  }

  lemma StepKeepsSound(t: Table, l: Label, r: Table)
    requires Sound(t) && Next(t, l) == Some(r)
    ensures Sound(r)
  {
    assert l.id in t.listeners ==> ListenerSound(t.listeners[l.id]);
  }

  /** In every run, however listeners are registered and closed, the disconnect callback
      comes at most once, and never for an acceptor or a timer. */
  lemma DisconnectsAtMostOnce(steps: seq<Label>, id: Id)
    ensures var r := Run(Next, EMPTY, steps);
            r.Some? ==>
              && Sound(r.value)
              && (id in r.value.listeners ==>
                    r.value.listeners[id].disconnects <= if r.value.listeners[id].kind.Connection? then 1 else 0)
  {
    forall t, l | Sound(t) && Next(t, l).Some? ensures Sound(Next(t, l).value) {
      StepKeepsSound(t, l, Next(t, l).value);
    }
    InvariantAlongRun(Next, Sound, EMPTY, steps);
  }

  // ---------------------------------------------------------------- what orderly use adds

  /** Every listener that was registered is either in the table or has been closed for good. */
  ghost predicate Inv(t: Table) {
    && Sound(t)
    && (forall id :: id in t.listeners ==>
          (t.InTable(id) <==> t.listeners[id].registered && t.listeners[id].Active()))
  }

  /** Closing a registered listener removes its own entry and no other, even if its number
      now also belongs to a listener that waits to be registered. */
  lemma CloseRemovesOwnEntry(t: Table, id: Id, lost: bool)
    requires Inv(t) && t.Registered(id)
    ensures var r := CloseListener(t, id, lost);
            && (forall other :: other in t.listeners && other != id ==> (r.InTable(other) <==> t.InTable(other)))
            && (r.InTable(id) ==> t.InTable(id) && r.entries == t.entries)
  {
    assert t.InTable(id) <==> t.listeners[id].Active();
  }

  lemma StepKeepsInv(t: Table, l: Label, r: Table)
    requires Inv(t) && OrderlyNext(t, l) == Some(r)
    ensures Inv(r)
  {
    StepKeepsSound(t, l, r);
    assert l.id in t.listeners ==> (t.InTable(l.id) <==> t.listeners[l.id].registered && t.listeners[l.id].Active());
    forall id | id in r.listeners
      ensures r.InTable(id) <==> r.listeners[id].registered && r.listeners[id].Active()
    {
      assert id in t.listeners ==> (t.InTable(id) <==> t.listeners[id].registered && t.listeners[id].Active());
    }
  }

  lemma EveryOrderlyRunIsSafe(steps: seq<Label>)
    ensures var r := Run(OrderlyNext, EMPTY, steps); r.Some? ==> Inv(r.value)
  {
    forall t, l | Inv(t) && OrderlyNext(t, l).Some? ensures Inv(OrderlyNext(t, l).value) {
      StepKeepsInv(t, l, OrderlyNext(t, l).value);
    }
    InvariantAlongRun(OrderlyNext, Inv, EMPTY, steps);
  }

  /** With orderly use, every connection that was registered has had exactly one disconnect
      callback by the time the table is empty. */
  lemma DisconnectsOnce(steps: seq<Label>, id: Id)
    ensures var r := Run(OrderlyNext, EMPTY, steps);
            r.Some? && id in r.value.listeners && r.value.entries == map[] ==>
              var l := r.value.listeners[id];
              l.registered && l.kind.Connection? ==> l.disconnects == 1
  {
    EveryOrderlyRunIsSafe(steps);
    var r := Run(OrderlyNext, EMPTY, steps);
    if r.Some? && id in r.value.listeners {
      assert ListenerSound(r.value.listeners[id]) && (r.value.entries == map[] ==> !r.value.InTable(id));
    }
  }

  // ---------------------------------------------------------------- without the rules

  /** Closing a listener that is not in the table takes away another listener's entry
      exactly when that entry has its descriptor number and this is the close that
      completes. */
  lemma CloseUnregisteredRemoves(t: Table, id: Id, lost: bool)
    requires Sound(t) && id in t.listeners && !t.InTable(id)
    ensures var l := t.listeners[id];
            CloseListener(t, id, lost).entries != t.entries
            <==> l.fileno in t.entries && l.Active() && (l.phase.Connected? ==> lost)
  {
    assert ListenerSound(t.listeners[id]);
  }

  /** That happens: the socket of a registered connection dies, a second connection gets
      its number and waits for the entry to go, and is closed meanwhile. */
  lemma EntryCanBeStolen() returns (steps: seq<Label>, t: Table, r: Table)
    ensures Leads(Next, EMPTY, steps, t) && Next(t, Close(2, true)) == Some(r)
    ensures t.InTable(1) && t.listeners[1].Active() && !t.InTable(2)
    ensures r.entries == map[] && r.listeners.Keys == {1, 2} && r.listeners[1].registered
    ensures r.listeners[1].fileno == r.listeners[2].fileno == 5 && !r.listeners[2].Active()
  {
    var first := Listener(Connection, 5, Connected, false, 0, false);
    var t1 := EMPTY.Update(1, first);
    LeadsOne(Next, EMPTY, Create(1, Connection, 5, Connected), t1);
    steps := [Create(1, Connection, 5, Connected)];
    var t2 := t1.Update(1, first.(registered := true)).(entries := t1.entries[5 := 1]);
    LeadsOneMore(Next, EMPTY, steps, t1, Register(1), t2);
    steps := steps + [Register(1)];
    var t3 := t2.Update(1, first.(registered := true, phase := Gone));
    LeadsOneMore(Next, EMPTY, steps, t2, Die(1), t3);
    steps := steps + [Die(1)];
    t := t3.Update(2, first);
    LeadsOneMore(Next, EMPTY, steps, t3, Create(2, Connection, 5, Connected), t);
    steps := steps + [Create(2, Connection, 5, Connected)];
    r := CloseListener(t, 2, true);
    assert t.entries - {5} == map[];
  }

  /** Then the first connection is closed as well, and the second one entered, although it
      has been closed for good. */
  lemma ClosedListenerCanBeEntered() returns (steps: seq<Label>, r: Table)
    ensures Leads(Next, EMPTY, steps, r) && r.InTable(2) && r.listeners[2].fileno == 5
    ensures forall id :: id in r.listeners ==> !r.listeners[id].Active()
  {
    var t, q;
    steps, t, q := EntryCanBeStolen();
    LeadsOneMore(Next, EMPTY, steps, t, Close(2, true), q);
    steps := steps + [Close(2, true)];
    var q' := CloseListener(q, 1, true);
    LeadsOneMore(Next, EMPTY, steps, q, Close(1, true), q');
    steps := steps + [Close(1, true)];
    DisconnectsAtMostOnce(steps, 1);
    r := q'.Update(2, q'.listeners[2].(registered := true)).(entries := q'.entries[5 := 2]);
    LeadsOneMore(Next, EMPTY, steps, q', Register(2), r);
    steps := steps + [Register(2)];
  }

  /** Closing such a listener again changes nothing. */
  lemma CloseProgressIffActive(t: Table, id: Id, lost: bool)
    requires Sound(t) && id in t.listeners
    ensures CloseListener(t, id, lost) == t <==> !t.listeners[id].Active()
  {
    var l := t.listeners[id];
    assert ListenerSound(l);
    if !l.Active() {
      assert t.listeners[id := l] == t.listeners;
    }
  }

  /** What threads do that register nothing. */
  function ClosingNext(t: Table, l: Label): Option<Table> {
    if l.Close? || l.Die? then Next(t, l) else None
  }

  /** Some listener with this number would still remove an entry. */
  ghost predicate Served(t: Table, fd: int) {
    exists id :: id in t.listeners && t.listeners[id].fileno == fd && t.listeners[id].Active()
  }

  ghost predicate CanBeEmptied(t: Table) {
    exists steps :: Run(ClosingNext, t, steps).Some? && Run(ClosingNext, t, steps).value.entries == map[]
  }

  lemma StepKeepsUnserved(t: Table, l: Label, r: Table, fd: int)
    requires fd in t.entries && !Served(t, fd) && ClosingNext(t, l) == Some(r)
    ensures fd in r.entries && !Served(r, fd)
  {
    forall id | id in r.listeners && r.listeners[id].fileno == fd
      ensures !r.listeners[id].Active()
    {
      assert t.listeners[id].fileno == fd;
    }
    assert t.listeners[l.id].fileno == fd ==> !t.listeners[l.id].Active();
  }

  lemma CloseServes(t: Table, id: Id, fd: int)
    requires Sound(t) && id in t.listeners && t.listeners[id].fileno == fd && t.listeners[id].Active()
    ensures var r := CloseListener(t, id, true);
            r.entries == t.entries - {fd} && forall other :: other != fd && Served(t, other) ==> Served(r, other)
  {
    assert ListenerSound(t.listeners[id]);
    var r := CloseListener(t, id, true);
    forall other | other != fd && Served(t, other) ensures Served(r, other) {
      var o :| o in t.listeners && t.listeners[o].fileno == other && t.listeners[o].Active();
      assert o in r.listeners && r.listeners[o] == t.listeners[o];
    }
  }

  lemma {:induction false} EmptyServed(t: Table) returns (steps: seq<Label>, r: Table)
    requires Sound(t) && forall fd :: fd in t.entries ==> Served(t, fd)
    ensures Leads(ClosingNext, t, steps, r) && r.entries == map[]
    decreases |t.entries|
  {
    steps, r := [], t;
    SomeEntry(t.entries);
    if t.entries != map[] {
      var fd :| fd in t.entries;
      var id :| id in t.listeners && t.listeners[id].fileno == fd && t.listeners[id].Active();
      var q, more := CloseListener(t, id, true), [];
      CloseServes(t, id, fd);
      StepKeepsSound(t, Close(id, true), q);
      assert q.entries.Keys == t.entries.Keys - {fd};
      more, r := EmptyServed(q);
      LeadsOne(ClosingNext, t, Close(id, true), q);
      LeadsOn(ClosingNext, t, [Close(id, true)], q, more, r);
      steps := [Close(id, true)] + more;
    }
  }

  /** Closing listeners, by `stop` and by any other thread, can empty the table exactly if
      every number in it belongs to a listener that has not been closed for good. */
  lemma CanBeEmptiedIffServed(t: Table)
    requires Sound(t)
    ensures CanBeEmptied(t) <==> forall fd :: fd in t.entries ==> Served(t, fd)
  {
    if forall fd :: fd in t.entries ==> Served(t, fd) {
      var steps, r := EmptyServed(t);
      assert Run(ClosingNext, t, steps) == Some(r);
    } else {
      var fd :| fd in t.entries && !Served(t, fd);
      var stuck := (t: Table) => fd in t.entries && !Served(t, fd);
      forall t, l | stuck(t) && ClosingNext(t, l).Some? ensures stuck(ClosingNext(t, l).value) {
        StepKeepsUnserved(t, l, ClosingNext(t, l).value, fd);
      }
      forall steps | Run(ClosingNext, t, steps).Some?
        ensures Run(ClosingNext, t, steps).value.entries != map[]
      {
        InvariantAlongRun(ClosingNext, stuck, t, steps);
      }
    }
  }

  // ---------------------------------------------------------------- stop

  ghost function ConnectedEntries(t: Table): set<int> {
    set fd | fd in t.entries && t.entries[fd] in t.listeners && t.listeners[t.entries[fd]].phase.Connected?
  }

  /** Two for every connected entry, one for every other. */
  ghost function Rank(t: Table): nat {
    |t.entries.Keys| + |ConnectedEntries(t)|
  }

  lemma Smaller(a: set<int>, b: set<int>)
    requires a <= b
    ensures |a| <= |b| && (a != b ==> |a| < |b|)
  {
    assert b == a + (b - a);
    assert a != b ==> b - a != {};
  }

  /** Without registrations the rank never grows, and it drops whenever an entry goes. */
  lemma RankStep(t: Table, l: Label, r: Table)
    requires Sound(t) && ClosingNext(t, l) == Some(r)
    ensures r.entries.Keys <= t.entries.Keys && ConnectedEntries(r) <= ConnectedEntries(t)
    ensures Rank(r) <= Rank(t)
    ensures r.entries != t.entries ==> Rank(r) < Rank(t)
  {
    assert ListenerSound(t.listeners[l.id]);
    Smaller(r.entries.Keys, t.entries.Keys);
    Smaller(ConnectedEntries(r), ConnectedEntries(t));
    if r.entries.Keys == t.entries.Keys {
      assert r.entries == t.entries;
    }
  }

  lemma CloseLowersRank(t: Table, id: Id, lost: bool)
    requires Sound(t) && t.InTable(id) && t.listeners[id].Active()
    ensures Rank(CloseListener(t, id, lost)) < Rank(t)
  {
    assert ListenerSound(t.listeners[id]);
    var r := CloseListener(t, id, lost);
    RankStep(t, Close(id, lost), r);
    if r.entries == t.entries {
      var fd := t.listeners[id].fileno;
      assert fd in ConnectedEntries(t) && fd !in ConnectedEntries(r);
      Smaller(ConnectedEntries(r), ConnectedEntries(t));
    }
  }

  lemma SomeEntry(entries: map<int, Id>)
    ensures entries == map[] || exists fd :: fd in entries
  {
    if forall fd :: fd !in entries {
      assert entries == map[];
    }
  }

  /** No entry is that of a listener that has been closed for good. */
  ghost predicate AllActive(t: Table) {
    forall fd :: fd in t.entries ==> t.entries[fd] in t.listeners && t.listeners[t.entries[fd]].Active()
  }

  lemma StepKeepsActive(t: Table, l: Label, r: Table)
    requires Sound(t) && AllActive(t) && ClosingNext(t, l) == Some(r)
    ensures AllActive(r)
  {
    forall fd | fd in r.entries
      ensures r.entries[fd] in r.listeners && r.listeners[r.entries[fd]].Active()
    {
      assert fd in t.entries && t.listeners[t.entries[fd]].Active();
    }
  }

  lemma InvIsActive(t: Table)
    requires Inv(t)
    ensures AllActive(t)
  {
    forall fd | fd in t.entries ensures t.listeners[t.entries[fd]].Active() {
      assert t.InTable(t.entries[fd]);
    }
  }

  /** A round of `stop` on its own: it picks some entry and closes that listener. */
  datatype Round = Round(fd: int, lost: bool)

  function StopNext(t: Table, r: Round): Option<Table> {
    if r.fd in t.entries && t.entries[r.fd] in t.listeners then Some(CloseListener(t, t.entries[r.fd], r.lost)) else None
  }

  ghost predicate StopEnds(t: Table) {
    exists n: nat :: StopEndsWithin(t, n)
  }

  /** Whatever it picks and however the kernel answers, there are no more rounds than that. */
  ghost predicate StopEndsWithin(t: Table, n: nat) {
    forall steps :: Run(StopNext, t, steps).Some? ==> |steps| <= n
  }

  ghost predicate Stoppable(t: Table) {
    Sound(t) && AllActive(t)
  }

  lemma RoundStep(t: Table, l: Round, r: Table)
    requires Stoppable(t) && StopNext(t, l) == Some(r)
    ensures Stoppable(r) && Rank(r) < Rank(t)
  {
    var id := t.entries[l.fd];
    StepKeepsSound(t, Close(id, l.lost), r);
    StepKeepsActive(t, Close(id, l.lost), r);
    CloseLowersRank(t, id, l.lost);
  }

  lemma {:induction false} ManyRounds(t: Table, fd: int, n: nat) returns (steps: seq<Round>)
    requires StopNext(t, Round(fd, false)) == Some(t)
    ensures |steps| == n && Run(StopNext, t, steps) == Some(t)
  {
    steps := [];
    if n > 0 {
      var more := ManyRounds(t, fd, n - 1);
      RunCons(StopNext, t, Round(fd, false), more);
      steps := [Round(fd, false)] + more;
    }
  }

  /** The entry under `fd` is that of a listener that has been closed for good. */
  ghost predicate Stuck(t: Table, fd: int) {
    Sound(t) && fd in t.entries && !t.listeners[t.entries[fd]].Active()
  }

  lemma RoundKeepsStuck(t: Table, l: Round, r: Table, fd: int)
    requires Stuck(t, fd) && StopNext(t, l) == Some(r)
    ensures Stuck(r, fd)
  {
    var id := t.entries[l.fd];
    StepKeepsSound(t, Close(id, l.lost), r);
    assert ListenerSound(t.listeners[id]);
    if id == t.entries[fd] {
      CloseProgressIffActive(t, id, l.lost);
    }
  }

  /** No sequence of rounds empties the table. */
  ghost predicate StopNeverEmpties(t: Table) {
    forall steps :: Run(StopNext, t, steps).Some? ==> Run(StopNext, t, steps).value.entries != map[]
  }

  lemma StuckForEver(t: Table, fd: int)
    requires Stuck(t, fd)
    ensures StopNeverEmpties(t)
  {
    var stuck := (t: Table) => Stuck(t, fd);
    forall t, l | stuck(t) && StopNext(t, l).Some? ensures stuck(StopNext(t, l).value) {
      RoundKeepsStuck(t, l, StopNext(t, l).value, fd);
    }
    forall steps | Run(StopNext, t, steps).Some? ensures Run(StopNext, t, steps).value.entries != map[] {
      InvariantAlongRun(StopNext, stuck, t, steps);
    }
  }

  /** `stop` comes to an end, whatever it picks, exactly if no entry is that of a listener
      that had been closed for good before it was entered; otherwise it goes on for any
      number of rounds, and none of them ever empties the table. */
  lemma StopEndsIffAllActive(t: Table)
    requires Sound(t)
    ensures StopEnds(t) <==> AllActive(t)
    ensures StopNeverEmpties(t) <==> !AllActive(t)
  {
    if AllActive(t) {
      forall t, l | Stoppable(t) && StopNext(t, l).Some?
        ensures Stoppable(StopNext(t, l).value) && Rank(StopNext(t, l).value) < Rank(t)
      {
        RoundStep(t, l, StopNext(t, l).value);
      }
      forall steps | Run(StopNext, t, steps).Some? ensures |steps| <= Rank(t) {
        RunsAreBounded(StopNext, Stoppable, Rank, t, steps);
      }
      assert StopEndsWithin(t, Rank(t));
      var steps, r := StopEmpties(t);
      assert Run(StopNext, t, steps) == Some(r);
    } else {
      var fd :| fd in t.entries && !t.listeners[t.entries[fd]].Active();
      CloseProgressIffActive(t, t.entries[fd], false);
      forall n: nat ensures !StopEndsWithin(t, n) {
        var steps := ManyRounds(t, fd, n + 1);
      }
      StuckForEver(t, fd);
    }
  }

  lemma {:induction false} StopEmpties(t: Table) returns (steps: seq<Round>, r: Table)
    requires Stoppable(t)
    ensures Leads(StopNext, t, steps, r) && r.entries == map[]
    decreases Rank(t)
  {
    steps, r := [], t;
    SomeEntry(t.entries);
    if t.entries != map[] {
      var fd :| fd in t.entries;
      var q, more := CloseListener(t, t.entries[fd], false), [];
      RoundStep(t, Round(fd, false), q);
      more, r := StopEmpties(q);
      LeadsOne(StopNext, t, Round(fd, false), q);
      LeadsOn(StopNext, t, [Round(fd, false)], q, more, r);
      steps := [Round(fd, false)] + more;
    }
  }

  /** After every orderly run `stop` comes to an end. */
  lemma StopEndsAfterOrderlyRuns(steps: seq<Label>)
    ensures var r := Run(OrderlyNext, EMPTY, steps); r.Some? ==> Stoppable(r.value) && StopEnds(r.value)
  {
    EveryOrderlyRunIsSafe(steps);
    var r := Run(OrderlyNext, EMPTY, steps);
    if r.Some? {
      InvIsActive(r.value);
      StopEndsIffAllActive(r.value);
    }
  }

  /** But the run above leads to a table on which `stop` never ends, and which no closes of
      other threads can empty either. */
  lemma StopCanHang() returns (steps: seq<Label>, r: Table)
    ensures Leads(Next, EMPTY, steps, r) && StopNeverEmpties(r) && !CanBeEmptied(r)
  {
    steps, r := ClosedListenerCanBeEntered();
    DisconnectsAtMostOnce(steps, 2);
    assert 5 in r.entries && r.entries[5] == 2 && !Served(r, 5);
    StopEndsIffAllActive(r);
    CanBeEmptiedIffServed(r);
  }

  /** The same happens with a timer whose descriptor could not be created: it is entered
      under the number -1, and closing it does nothing. */
  lemma FailedTimerHangsStop() returns (steps: seq<Label>, r: Table)
    ensures steps == [Create(1, Timer, -1, Gone)] + [Register(1)]
    ensures Leads(Next, EMPTY, steps, r) && StopNeverEmpties(r) && !CanBeEmptied(r)
  {
    var timer := Listener(Timer, -1, Gone, false, 0, false);
    var t := EMPTY.Update(1, timer);
    LeadsOne(Next, EMPTY, Create(1, Timer, -1, Gone), t);
    r := t.Update(1, timer.(registered := true)).(entries := t.entries[-1 := 1]);
    LeadsOneMore(Next, EMPTY, [Create(1, Timer, -1, Gone)], t, Register(1), r);
    steps := [Create(1, Timer, -1, Gone)] + [Register(1)];
    DisconnectsAtMostOnce(steps, 1);
    assert -1 in r.entries && r.entries[-1] == 1 && !Served(r, -1);
    StopEndsIffAllActive(r);
    CanBeEmptiedIffServed(r);
  }

  class EventLoop {
    var okay: bool
    var table: Table

    constructor ()
      ensures okay && table == EMPTY
    {
      okay, table := true, EMPTY;
    }

    /** What other threads do while `stop` does not hold the lock: they close listeners
        and sockets die, but nobody registers. */
    method Interfere(script: seq<Label>)
      requires Sound(table)
      modifies this`table
      ensures Sound(table) && Shrunk(old(table), table)
      ensures old(Inv(table)) && Disciplined(old(table), script) ==> Inv(table)
    {
      for i := 0 to |script|
        invariant Sound(table) && Shrunk(old(table), table)
        invariant old(Inv(table)) && Disciplined(old(table), script) ==> Inv(table)
      {
        var r := ClosingNext(table, script[i]);
        if r.Some? {
          ShrinkStep(old(table), table, script[i], r.value);
          if old(Inv(table)) && Disciplined(old(table), script) {
            DisciplinedStep(old(table), table, script[i], r.value);
          }
          table := r.value;
        }
      }
    }

    /** One round: pick a listener, let go of the lock, close it.  It makes progress if no
        entry is that of a listener closed for good. */
    method StopRound(others: seq<Label>, lost: bool)
      requires Sound(table) && table.entries != map[]
      modifies this`table
      ensures Sound(table) && Shrunk(old(table), table)
      ensures old(AllActive(table)) ==> Rank(table) < old(Rank(table))
      ensures old(Inv(table)) && Disciplined(old(table), others) ==> Inv(table)
    {
      SomeEntry(table.entries);
      var fd :| fd in table.entries;
      var id := table.entries[fd];
      ghost var before := table;
      Interfere(others);
      CloseShrinks(before, table, id, lost);
      if Inv(before) && Inv(table) {
        InvMeansRegistered(before, id);
        DisciplinedStep(before, table, Close(id, lost), CloseListener(table, id, lost));
      }
      table := CloseListener(table, id, lost);
    }

    /** Closes listeners until none is left, as far as the first `rounds` rounds go.
        `others(i)` is what other threads do during the i-th round and `lost(i)` how the
        kernel answers.  Whatever they are, the loop ends if no entry is that of a listener
        closed for good, and does not end while some number in the table belongs to none
        but such listeners.  If other threads keep to the rules, every connection that was
        registered has then been disconnected once. */
    method Stop(others: nat -> seq<Label>, lost: nat -> bool, rounds: nat) returns (ended: bool)
      requires Sound(table)
      modifies this
      ensures !okay && Sound(table)
      ensures if old(okay) then Shrunk(old(table), table) else ended && table == old(table)
      ensures old(okay) ==> (ended <==> table.entries == map[])
      ensures old(okay) && old(AllActive(table)) && rounds >= old(Rank(table)) ==> ended
      ensures old(okay) && (exists fd :: fd in old(table).entries && !Served(old(table), fd)) ==> !ended
      ensures old(okay) && old(Inv(table)) && (forall i: nat :: Disciplined(old(table), others(i))) && ended ==>
                AllDisconnected(old(table), table)
    {
      if !okay {
        return true;
      }
      okay := false;
      ghost var start := table;
      ghost var orderly := Inv(start) && forall i: nat :: Disciplined(start, others(i));
      var i := 0;
      while table.entries != map[] && i < rounds
        invariant 0 <= i <= rounds && Sound(table) && Shrunk(start, table) && !okay
        invariant AllActive(start) ==> Rank(table) + i <= Rank(start)
        invariant orderly ==> Inv(table)
      {
        ghost var before := table;
        if orderly {
          StillDisciplined(start, table, others(i));
        }
        StopRound(others(i), lost(i));
        ShrunkTransitive(start, before, table);
        i := i + 1;
      }
      ended := table.entries == map[];
      NoRankNoEntries(table);
      if orderly && ended {
        EmptyMeansDisconnected(start, table);
      }
    }
  }

  /** Every connection that was registered in `t` has been disconnected once in `r`. */
  ghost predicate AllDisconnected(t: Table, r: Table) {
    forall id :: id in t.listeners && t.listeners[id].registered && t.listeners[id].kind.Connection? ==>
      id in r.listeners && r.listeners[id].disconnects == 1
  }

  /** The script closes only listeners that are registered. */
  ghost predicate Disciplined(t: Table, script: seq<Label>) {
    forall l :: l in script && l.Close? ==> t.Registered(l.id)
  }

  /** Nobody was registered: listeners stay what they are, and the rank has dropped if the
      table has changed.  Entries that could be closed still can, and numbers that nobody
      serves are still there. */
  ghost predicate Shrunk(t: Table, r: Table) {
    && Kept(t, r) && Rank(r) <= Rank(t)
    && (r.entries != t.entries ==> Rank(r) < Rank(t))
    && (AllActive(t) ==> AllActive(r))
    && (forall fd :: fd in t.entries && !Served(t, fd) ==> fd in r.entries && !Served(r, fd))
  }

  lemma NoRankNoEntries(t: Table)
    ensures Rank(t) == 0 ==> t.entries == map[]
  {
    if t.entries.Keys == {} {
      assert t.entries == map[];
    }
  }

  lemma InvMeansRegistered(t: Table, id: Id)
    requires Inv(t) && t.InTable(id)
    ensures t.Registered(id)
  {
  }

  lemma ShrunkTransitive(t: Table, r: Table, q: Table)
    requires Shrunk(t, r) && Shrunk(r, q)
    ensures Shrunk(t, q)
  {
  }

  lemma StillDisciplined(t: Table, r: Table, script: seq<Label>)
    requires Shrunk(t, r) && Disciplined(t, script)
    ensures Disciplined(r, script)
  {
  }

  lemma KeptStep(t: Table, l: Label, r: Table)
    requires ClosingNext(t, l) == Some(r)
    ensures Kept(t, r)
  {
  }

  lemma ShrinkStep(t: Table, r: Table, l: Label, q: Table)
    requires Sound(r) && Shrunk(t, r) && ClosingNext(r, l) == Some(q)
    ensures Sound(q) && Shrunk(t, q)
  {
    StepKeepsSound(r, l, q);
    if AllActive(r) {
      StepKeepsActive(r, l, q);
    }
    forall fd | fd in r.entries && !Served(r, fd) ensures fd in q.entries && !Served(q, fd) {
      StepKeepsUnserved(r, l, q, fd);
    }
    RankStep(r, l, q);
    KeptStep(r, l, q);
    ShrunkTransitive(t, r, q);
  }

  lemma DisciplinedStep(t: Table, r: Table, l: Label, q: Table)
    requires Shrunk(t, r) && Inv(r) && ClosingNext(r, l) == Some(q) && (l.Close? ==> t.Registered(l.id))
    ensures Inv(q)
  {
    StepKeepsInv(r, l, q);
  }

  /** A round of `stop`: the listener it picked is closed, or another thread was faster. */
  lemma CloseShrinks(t: Table, r: Table, id: Id, lost: bool)
    requires Sound(t) && t.InTable(id) && Sound(r) && Shrunk(t, r)
    ensures id in r.listeners
    ensures var q := CloseListener(r, id, lost); Sound(q) && Shrunk(t, q) && (AllActive(t) ==> Rank(q) < Rank(t))
  {
    ShrinkStep(t, r, Close(id, lost), CloseListener(r, id, lost));
    if AllActive(t) {
      if r.entries == t.entries {
        CloseLowersRank(r, id, lost);
      } else {
        RankStep(r, Close(id, lost), CloseListener(r, id, lost));
      }
    }
  }

  lemma EmptyMeansDisconnected(t: Table, r: Table)
    requires Inv(r) && Shrunk(t, r) && r.entries == map[]
    ensures AllDisconnected(t, r)
  {
    forall id | id in t.listeners && t.listeners[id].registered && t.listeners[id].kind.Connection?
      ensures id in r.listeners && r.listeners[id].disconnects == 1
    {
      assert ListenerSound(r.listeners[id]) && !r.InTable(id);
    }
  }

  /** Listeners stay what they are and stay registered. */
  ghost predicate Kept(t: Table, r: Table) {
    forall id :: id in t.listeners ==>
      && id in r.listeners
      && r.listeners[id].kind == t.listeners[id].kind && r.listeners[id].fileno == t.listeners[id].fileno
      && r.listeners[id].registered == t.listeners[id].registered
  }
}
