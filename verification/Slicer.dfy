/** The receive buffer and the incremental slicer that cuts a byte stream into messages. */
module Slicer {
  import opened Runs
  import opened Framing

  const MAX_SIZE: nat := 4096

  function Min(a: int, b: int): int { if a <= b then a else b }

  /** `memcpy` of `src` into `dst` at offset `at`. */
  function Overwrite(dst: Bytes, at: nat, src: Bytes): (r: Bytes)
    requires at + |src| <= |dst|
    ensures |r| == |dst| && r[..at + |src|] == dst[..at] + src
  {
    dst[..at] + src + dst[at + |src|..]
  }

  class Buffer {
    const data: array<Byte>
    var position: int
    var size: nat

    ghost predicate Valid()
      reads this
    {
      && data.Length == MAX_SIZE
      && (if size == 0 then position == -1 else 0 <= position <= size <= MAX_SIZE)
    }

    /** The bytes that have been received but not looked at yet. */
    ghost function Unread(): Bytes
      requires Valid()
      reads this, data
    {
      if size == 0 then [] else data[position..size]
    }

    constructor ()
      ensures Valid() && size == 0 && fresh(data)
    {
      data := new Byte[MAX_SIZE];
      position, size := -1, 0;
    }

    method Reset()
      requires data.Length == MAX_SIZE
      modifies this
      ensures Valid() && size == 0
    {
      size := 0;
      position := -1;
    }

    predicate IsValid()
      reads this
    {
      size > 0
    }

    predicate AtEnd()
      reads this
    {
      position >= size
    }

    /** Moves the cursor over bytes that have been looked at. */
    method AdvancePosition(advanceBy: nat)
      requires Valid() && IsValid() && position + advanceBy <= size
      modifies `position
      ensures Valid() && Unread() == old(Unread())[advanceBy..]
    {
      position := position + advanceBy;
    }

    method ResetAtEnd()
      requires Valid() && IsValid()
      modifies this
      ensures Valid() && Unread() == old(Unread()) && (size == 0 <==> Unread() == [])
    {
      if AtEnd() {
        Reset();
      }
    }

    /** Copies a chunk into the buffer and points the cursor at its start. */
    method Fill(bytes: Bytes)
      requires data.Length == MAX_SIZE
      requires 0 < |bytes| <= MAX_SIZE
      modifies this, data
      ensures Valid() && size == |bytes| && Unread() == bytes
    {
      forall i | 0 <= i < |bytes| {
        data[i] := bytes[i];
      }
      size := |bytes|;
      position := 0;
    }
  }

  /** A message being received: the object representation of its length field, how
      many bytes of header and body have been read, and the body once allocated. */
  datatype Partial = Partial(header: Bytes, readPos: nat, data: Option<Bytes>) {

    function Length(): nat
      requires |header| == HEADER_SIZE
    {
      LoadLE(header)
    }

    /** Header known, body of the announced size allocated, not read past its end. */
    predicate HasBody() {
      && |header| == HEADER_SIZE && HEADER_SIZE < Length()
      && data.Some? && |data.value| == Length() - HEADER_SIZE
      && HEADER_SIZE <= readPos <= Length()
    }

    /** What may be kept between two calls of the slicer. */
    predicate Saved() {
      |header| == HEADER_SIZE
      && if readPos < HEADER_SIZE then data.None? else HasBody() && readPos < Length()
    }

    predicate Complete() {
      HasBody() && readPos == Length()
    }

    function Payload(): Bytes {
      if data.Some? then data.value else []
    }

    /** The bytes of the stream this message stands for. */
    function Seen(): Bytes
      requires Saved() || HasBody()
    {
      if readPos < HEADER_SIZE then header[..readPos] else header + data.value[..readPos - HEADER_SIZE]
    }

    /** Copies `bytes` into the length field. */
    function ReadHeader(bytes: Bytes): (r: Partial)
      requires Saved() && readPos + |bytes| <= HEADER_SIZE
      ensures |r.header| == HEADER_SIZE && r.readPos == readPos + |bytes| && r.data == data
      ensures r.header[..r.readPos] == Seen() + bytes
    {
      Partial(Overwrite(header, readPos, bytes), readPos + |bytes|, data)
    }

    /** Copies `bytes` into the body. */
    function ReadBody(bytes: Bytes): (r: Partial)
      requires HasBody() && readPos + |bytes| <= Length()
      ensures r.HasBody() && r.header == header && r.readPos == readPos + |bytes|
      ensures r.Seen() == Seen() + bytes
    {
      var body := Overwrite(data.value, readPos - HEADER_SIZE, bytes);
      assert header + body[..readPos - HEADER_SIZE + |bytes|] == Seen() + bytes;
      Partial(header, readPos + |bytes|, Some(body))
    }
  }

  const NO_MESSAGE := Partial([0, 0, 0, 0], 0, None)

  lemma SeenDecodes(p: Partial)
    requires p.Saved() || p.Complete()
    ensures p.Saved() ==> Incomplete(p.Seen()) && Decode(p.Seen()) == Decoded([], p.Seen())
    ensures p.Complete() ==> Decode(p.Seen()) == Decoded([p.Payload()], [])
  {
    if p.readPos >= HEADER_SIZE {
      var b := p.Seen();
      assert b[..HEADER_SIZE] == p.header;
      if p.Complete() {
        assert b[HEADER_SIZE..p.Length()] == p.data.value && b[p.Length()..] == [];
      }
    }
  }

  /** How many of the unread bytes `u` one call takes when `t` is what it already holds:
      up to the end of the current message, or of an invalid header, or all of them. */
  function Consumed(t: Bytes, u: Bytes): (k: nat)
    requires Incomplete(t)
    ensures k <= |u|
  {
    if |t| + |u| < HEADER_SIZE then |u|
    else
      var n := LoadLE((t + u)[..HEADER_SIZE]);
      assert |t| >= HEADER_SIZE ==> (t + u)[..HEADER_SIZE] == t[..HEADER_SIZE];
      if n <= HEADER_SIZE then
        HEADER_SIZE - |t|
      else
        Min(n - |t|, |u|)
  }

  /** Reading on from `t` in `u` meets a count that is too small to be a message. */
  predicate MeetsInvalidHeader(t: Bytes, u: Bytes) {
    |t| + |u| >= HEADER_SIZE && LoadLE((t + u)[..HEADER_SIZE]) <= HEADER_SIZE
  }

  function PayloadsOf(ms: seq<Partial>): (ps: seq<Bytes>) {
    seq(|ms|, i requires 0 <= i < |ms| => ms[i].Payload())
  }

  /** What reading on in a message comes to: a header too small to be one, or the
      message as far as it got, and the number of bytes taken. */
  datatype ReadStep = InvalidHeader(taken: nat) | Reading(message: Partial, taken: nat)

  /** Reads the header of the next datagram and then its body, as far as `u` goes. */
  function ReadOn(msg: Partial, u: Bytes): (s: ReadStep)
    requires msg.Saved()
    ensures s.taken <= |u|
    ensures s.Reading? ==> s.message.Complete() || s.message.Saved()
  {
    if msg.readPos < HEADER_SIZE then
      var n := Min(HEADER_SIZE - msg.readPos, |u|);
      var r := msg.ReadHeader(u[..n]);
      if r.readPos < HEADER_SIZE then Reading(r, n)
      else if r.Length() <= HEADER_SIZE then InvalidHeader(n)
      else ReadBodyOn(r.(data := Some(seq(r.Length() - HEADER_SIZE, i => 0))), u, n)
    else ReadBodyOn(msg, u, 0)
  }

  function ReadBodyOn(msg: Partial, u: Bytes, taken: nat): (s: ReadStep)
    requires msg.HasBody() && taken <= |u|
    ensures s.taken <= |u| && s.Reading? && s.message.HasBody()
  {
    var n := Min(msg.Length() - msg.readPos, |u| - taken);
    if n > 0 && msg.data.None? then
      assert false; Reading(msg, taken)  // message buffer not allocated
    else
      var r := msg.ReadBody(u[taken..taken + n]);
      if r.readPos > r.Length() then
        assert false; Reading(r, taken)  // invalid message length
      else
        Reading(r, taken + n)
  }

  /** What the message holds after reading on is what it held before followed by what was
      taken, and everything was taken unless the message is complete. */
  ghost predicate ReadOnFrom(msg: Partial, u: Bytes, s: ReadStep)
    requires msg.Saved()
  {
    && s.taken <= |u|
    && match s {
         case InvalidHeader(k) =>
           var b := msg.Seen() + u[..k];
           msg.readPos < HEADER_SIZE == |b| && LoadLE(b) <= HEADER_SIZE
         case Reading(r, k) =>
           && (r.Complete() || (r.Saved() && k == |u|))
           && r.Seen() == msg.Seen() + u[..k]
       }
  }

  lemma ReadOnSeen(msg: Partial, u: Bytes)
    requires msg.Saved()
    ensures ReadOnFrom(msg, u, ReadOn(msg, u))
  {
    if msg.readPos < HEADER_SIZE {
      var n := Min(HEADER_SIZE - msg.readPos, |u|);
      var r := msg.ReadHeader(u[..n]);
      if r.readPos < HEADER_SIZE {
        HeaderIncomplete(msg, u, r);
      } else if r.Length() <= HEADER_SIZE {
        HeaderInvalid(msg, u, n, r);
      } else {
        HeaderSeen(msg, u[..n], r);
        ReadBodyOnSeen(msg, r.(data := Some(seq(r.Length() - HEADER_SIZE, i => 0))), u, n);
      }
    } else {
      assert msg.Seen() == msg.Seen() + u[..0];
      ReadBodyOnSeen(msg, msg, u, 0);
    }
  }

  lemma HeaderIncomplete(msg: Partial, u: Bytes, r: Partial)
    requires msg.Saved() && msg.readPos + |u| < HEADER_SIZE && r == msg.ReadHeader(u[..|u|])
    ensures ReadOnFrom(msg, u, Reading(r, |u|))
  {
  }

  lemma HeaderInvalid(msg: Partial, u: Bytes, n: nat, r: Partial)
    requires msg.Saved() && msg.readPos < HEADER_SIZE == msg.readPos + n && n <= |u|
    requires r == msg.ReadHeader(u[..n]) && r.Length() <= HEADER_SIZE
    ensures ReadOnFrom(msg, u, InvalidHeader(n))
  {
    assert r.header[..HEADER_SIZE] == r.header;
  }

  lemma HeaderSeen(msg: Partial, bytes: Bytes, r: Partial)
    requires msg.Saved() && msg.readPos + |bytes| == HEADER_SIZE && msg.readPos < HEADER_SIZE
    requires r == msg.ReadHeader(bytes) && r.Length() > HEADER_SIZE
    ensures var m := r.(data := Some(seq(r.Length() - HEADER_SIZE, i => 0)));
            m.HasBody() && m.Seen() == msg.Seen() + bytes
  {
    assert r.header[..HEADER_SIZE] == r.header;
  }

  lemma ReadBodyOnSeen(start: Partial, msg: Partial, u: Bytes, taken: nat)
    requires start.Saved() && msg.HasBody() && msg.readPos < msg.Length() && taken <= |u|
    requires msg.Seen() == start.Seen() + u[..taken]
    ensures ReadOnFrom(start, u, ReadBodyOn(msg, u, taken))
  {
    var s := ReadBodyOn(msg, u, taken);
    assert u[..s.taken] == u[..taken] + u[taken..s.taken];
    Regroup(start.Seen(), u[..taken], u[taken..s.taken]);
  }

  /** One call of the slicer: from tail `t` and unread bytes `u` to tail `t'`, unread
      bytes `u'` and newly completed messages `ms`, of which there is at most one. */
  ghost predicate Sliced(t: Bytes, u: Bytes, t': Bytes, u': Bytes, ms: seq<Bytes>, invalidHeader: bool)
    requires Incomplete(t)
  {
    var k := Consumed(t, u);
    && u' == u[k..]
    && Decode(t + u[..k]) == Decoded(ms, t') && |ms| <= 1
    && invalidHeader == MeetsInvalidHeader(t, u)
  }

  lemma InvalidSlices(t: Bytes, u: Bytes, k: nat)
    requires k <= |u| && |t| < HEADER_SIZE == |t| + k
    requires LoadLE(t + u[..k]) <= HEADER_SIZE
    ensures Sliced(t, u, [], u[k..], [], true)
  {
    var b := t + u[..k];
    assert (t + u)[..HEADER_SIZE] == b == b[..HEADER_SIZE];
  }

  lemma CompleteSlices(t: Bytes, u: Bytes, k: nat, r: Partial)
    requires Incomplete(t) && k <= |u|
    requires r.Complete() && r.Seen() == t + u[..k]
    ensures Sliced(t, u, [], u[k..], [r.Payload()], false) && 0 < k
  {
    var b := t + u[..k];
    assert (t + u)[..HEADER_SIZE] == b[..HEADER_SIZE] == r.header;
    SeenDecodes(r);
    assert k == 0 ==> b == t;
  }

  lemma SavedSlices(t: Bytes, u: Bytes, r: Partial)
    requires Incomplete(t)
    requires r.Saved() && r.Seen() == t + u
    ensures Sliced(t, u, r.Seen(), [], [], false)
  {
    SeenDecodes(r);
    if r.readPos >= HEADER_SIZE {
      assert (t + u)[..HEADER_SIZE] == r.header;
    }
    assert Consumed(t, u) == |u| && u[..|u|] == u;
  }

  lemma ReadOnSlices(msg: Partial, u: Bytes)
    requires msg.Saved()
    ensures var s, t := ReadOn(msg, u), msg.Seen();
            && Incomplete(t)
            && (u != [] ==> 0 < s.taken)
            && match s {
                 case InvalidHeader(k) => u != [] && Sliced(t, u, [], u[k..], [], true)
                 case Reading(r, k) =>
                   if r.Complete() then Sliced(t, u, [], u[k..], [r.Payload()], false)
                   else Sliced(t, u, r.Seen(), u[k..], [], false)
               }
  {
    var t := msg.Seen();
    SeenDecodes(msg);
    ReadOnSeen(msg, u);
    match ReadOn(msg, u)
    case InvalidHeader(k) =>
      InvalidSlices(t, u, k);
    case Reading(r, k) =>
      if r.Complete() {
        CompleteSlices(t, u, k, r);
      } else {
        assert u[..k] == u && u[k..] == [];
        SavedSlices(t, u, r);
      }
  }

  function One(message: Option<Bytes>): seq<Bytes> {
    if message.Some? then [message.value] else []
  }

  class DatagramMessageSlicer {
    const buffer: Buffer
    var messages: seq<Partial>
    var hasCurrent: bool
    var current: Partial

    ghost predicate Valid()
      reads this, buffer
    {
      && buffer.Valid()
      && (forall i :: 0 <= i < |messages| ==> messages[i].Complete())
      && (if hasCurrent then current.Saved() else current == NO_MESSAGE)
    }

    /** The undecoded tail of everything taken from the buffer so far. */
    ghost function Tail(): (t: Bytes)
      requires Valid()
      reads this, buffer
      ensures Incomplete(t)
    {
      if hasCurrent then SeenDecodes(current); current.Seen() else []
    }

    ghost function Payloads(): seq<Bytes>
      requires Valid()
      reads this, buffer
    {
      PayloadsOf(messages)
    }

    /** Unread bytes, plus one while the buffer counts as valid. */
    ghost function Work(): nat
      requires Valid()
      reads this, buffer
    {
      if buffer.size > 0 then buffer.size - buffer.position + 1 else 0
    }

    constructor ()
      ensures Valid() && Tail() == [] && Payloads() == []
      ensures fresh(buffer) && fresh(buffer.data) && buffer.size == 0
    {
      buffer := new Buffer();
      messages, hasCurrent, current := [], false, NO_MESSAGE;
    }

    predicate HasMessages()
      reads this
    {
      messages != []
    }

    method GetMessage() returns (message: Option<Bytes>)
      requires Valid()
      modifies this
      ensures Valid() && Tail() == old(Tail())
      ensures old(Payloads()) == One(message) + Payloads() && (message.None? ==> Payloads() == [])
    {
      if !HasMessages() {
        return None;
      }
      var front := messages[0];
      message := Some(front.data.value[..front.Length() - HEADER_SIZE]);
      assert message.value == front.Payload();
      messages := messages[1..];
    }

    /** The saved message, or the blank one reading starts from. */
    ghost function Start(): (msg: Partial)
      requires Valid()
      reads this, buffer
      ensures msg.Saved()
    {
      if hasCurrent then current else NO_MESSAGE
    }

    /** Moves the saved message out, if there is one. */
    method TakeCurrent() returns (msg: Partial)
      requires Valid()
      modifies `current, `hasCurrent
      ensures Valid() && !hasCurrent
      ensures msg == old(Start())
    {
      msg := NO_MESSAGE;
      if hasCurrent {
        msg, current := current, NO_MESSAGE;
        hasCurrent := false;
      }
    }

    /** Queues a complete message, keeps any other for the next call. */
    method Store(msg: Partial)
      requires Valid() && !hasCurrent
      requires msg.Saved() || msg.Complete()
      modifies `messages, `current, `hasCurrent
      ensures Valid()
      ensures msg.Complete() ==> Payloads() == old(Payloads()) + [msg.Payload()] && Tail() == []
      ensures msg.Saved() ==> Payloads() == old(Payloads()) && Tail() == msg.Seen()
    {
      if msg.readPos >= HEADER_SIZE && msg.readPos == msg.Length() {
        messages := messages + [msg];
      } else {
        current, hasCurrent := msg, true;
      }
    }

    /** The state changes of one call. */
    method Advance() returns (read: ReadStep)
      requires Valid() && buffer.IsValid()
      modifies this, buffer
      ensures Valid() && read == ReadOn(old(Start()), old(buffer.Unread()))
      ensures buffer.Unread() == old(buffer.Unread())[read.taken..]
      ensures match read {
                case InvalidHeader(_) =>
                  Payloads() == old(Payloads()) && Tail() == [] && buffer.size == old(buffer.size)
                case Reading(msg, _) =>
                  && (buffer.size == 0 <==> buffer.Unread() == [])
                  && if msg.Complete() then Payloads() == old(Payloads()) + [msg.Payload()] && Tail() == []
                     else Payloads() == old(Payloads()) && Tail() == msg.Seen()
              }
    {
      var msg := TakeCurrent();
      var unread := buffer.data[buffer.position..buffer.size];
      read := ReadOn(msg, unread);
      buffer.AdvancePosition(read.taken);
      if read.Reading? {
        Store(read.message);
        buffer.ResetAtEnd();
      }
    }

    /** Handles at most one message of what is in the buffer. */
    method ProcessBuffer() returns (invalidHeader: bool)
      requires Valid() && buffer.IsValid()
      modifies this, buffer
      ensures Valid() && Work() < old(Work())
      ensures old(Payloads()) <= Payloads()
      ensures Sliced(old(Tail()), old(buffer.Unread()), Tail(), buffer.Unread(),
                     Payloads()[|old(Payloads())|..], invalidHeader)
      ensures buffer.size == 0 <==> !invalidHeader && buffer.Unread() == []
    {
      ghost var msg, u, ps := Start(), buffer.Unread(), Payloads();
      var read := Advance();
      ReadOnSlices(msg, u);
      assert Payloads()[|ps|..]
             == if read.Reading? && read.message.Complete() then [read.message.Payload()] else [];
      invalidHeader := read.InvalidHeader?;
    }
  }

  /** Turns a payload into its frame inside one reallocated block: the payload is
      moved up by the size of the header and the header written in front of it. */
  method PrepareMessage(payload: array<Byte>) returns (block: array<Byte>)
    requires payload.Length + HEADER_SIZE < U32
    ensures fresh(block)
    ensures block[..] == StoreLE(payload.Length + HEADER_SIZE) + payload[..]
    ensures Sendable(payload[..]) ==> block[..] == Frame(payload[..])
  {
    var length := payload.Length + HEADER_SIZE;
    block := new Byte[length];
    forall i | 0 <= i < payload.Length {  // realloc keeps the contents
      block[i] := payload[i];
    }
    forall i | 0 <= i < payload.Length {  // memmove
      block[i + HEADER_SIZE] := block[i];
    }
    var header := StoreLE(length);
    forall i | 0 <= i < HEADER_SIZE {
      block[i] := header[i];
    }
  }
}
