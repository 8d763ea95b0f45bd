/** The wire format: a four-byte little-endian count that includes itself,
    followed by the payload.  `Decode` is the one-shot decoder that the
    incremental slicer has to agree with. */
module Framing {

  type Byte = b: int | 0 <= b < 256
  type Bytes = seq<Byte>

  const HEADER_SIZE: nat := 4
  const U32: nat := 0x1_0000_0000

  /** The value of a `uint32_t` whose object representation is `h`. */
  function LoadLE(h: Bytes): (n: nat)
    requires |h| == HEADER_SIZE
  {
    h[0] as int + 0x100 * h[1] as int + 0x1_0000 * h[2] as int + 0x100_0000 * h[3] as int
  }

  function StoreLE(n: nat): (h: Bytes)
    requires n < U32
    ensures |h| == HEADER_SIZE && LoadLE(h) == n
  {
    var n1 := n / 0x100;
    var n2 := n1 / 0x100;
    [n % 0x100, n1 % 0x100, n2 % 0x100, n2 / 0x100]
  }

  /** A payload that can be framed: the count must fit a `uint32_t`. */
  predicate Sendable(payload: Bytes) {
    0 < |payload| && |payload| + HEADER_SIZE < U32
  }

  function Frame(payload: Bytes): (f: Bytes)
    requires Sendable(payload)
  {
    StoreLE(|payload| + HEADER_SIZE) + payload
  }

  /** On the wire: the length of the frame, header included, least significant byte first. */
  lemma FrameLayout(payload: Bytes)
    requires Sendable(payload)
    ensures var f, n := Frame(payload), |payload| + HEADER_SIZE;
            && |f| == n && f[HEADER_SIZE..] == payload
            && f[0] == n % 0x100 && f[1] == n / 0x100 % 0x100
            && f[2] == n / 0x1_0000 % 0x100 && f[3] == n / 0x100_0000
  {
    var n := |payload| + HEADER_SIZE;
    assert n / 0x100 / 0x100 == n / 0x1_0000 && n / 0x1_0000 / 0x100 == n / 0x100_0000;
  }

  function Frames(payloads: seq<Bytes>): Bytes
    requires forall p :: p in payloads ==> Sendable(p)
  {
    if payloads == [] then [] else Frame(payloads[0]) + Frames(payloads[1..])
  }

  datatype Decoded = Decoded(messages: seq<Bytes>, rest: Bytes) {
    /** This result followed by what its tail went on to give. */
    function Then(next: Decoded): Decoded {
      Decoded(messages + next.messages, next.rest)
    }
  }

  /** Reads a count n; n <= 4 is dropped and decoding resumes behind it,
      otherwise the next n - 4 bytes are a message.  `rest` is the undecoded tail. */
  function Decode(b: Bytes): Decoded
    decreases |b|
  {
    if |b| < HEADER_SIZE then Decoded([], b)
    else
      var n := LoadLE(b[..HEADER_SIZE]);
      if n <= HEADER_SIZE then Decode(b[HEADER_SIZE..])
      else if |b| < n then Decoded([], b)
      else
        Decoded([b[HEADER_SIZE..n]], []).Then(Decode(b[n..]))
  }

  /** A byte string that is less than one frame. */
  predicate Incomplete(b: Bytes) {
    |b| < HEADER_SIZE || (var n := LoadLE(b[..HEADER_SIZE]); HEADER_SIZE < n && |b| < n)
  }

  lemma {:induction false} RestIsIncomplete(b: Bytes)
    ensures Incomplete(Decode(b).rest)
    decreases |b|
  {
    if |b| >= HEADER_SIZE {
      var n := LoadLE(b[..HEADER_SIZE]);
      if n <= HEADER_SIZE {
        RestIsIncomplete(b[HEADER_SIZE..]);
      } else if n <= |b| {
        RestIsIncomplete(b[n..]);
      }
    }
  }

  /** Where a stream is cut does not matter: decoding `a` and then the tail of `a`
      followed by `b` gives the messages and the tail of the uncut stream. */
  lemma {:induction false} DecodeSplit(a: Bytes, b: Bytes)
    ensures Decode(a + b) == Decode(a).Then(Decode(Decode(a).rest + b))
    decreases |a|
  {
    if |a| < HEADER_SIZE {
      assert Decode(a) == Decoded([], a);
    } else {
      var n := LoadLE(a[..HEADER_SIZE]);
      assert (a + b)[..HEADER_SIZE] == a[..HEADER_SIZE];
      if n <= HEADER_SIZE {
        DecodeSplit(a[HEADER_SIZE..], b);
        assert (a + b)[HEADER_SIZE..] == a[HEADER_SIZE..] + b;
      } else if |a| < n {
        assert Decode(a) == Decoded([], a);
      } else {
        DecodeSplit(a[n..], b);
        DecodeFirst(a, b, n);
        ThenAssociative(Decoded([a[HEADER_SIZE..n]], []), Decode(a[n..]), Decode(Decode(a[n..]).rest + b));
      }
    }
  }

  lemma ThenAssociative(d: Decoded, e: Decoded, f: Decoded)
    ensures d.Then(e.Then(f)) == d.Then(e).Then(f)
  {
    assert d.messages + (e.messages + f.messages) == d.messages + e.messages + f.messages;
  }

  lemma Regroup<T>(a: seq<T>, b: seq<T>, c: seq<T>)
    ensures a + (b + c) == a + b + c
  {
  }

  lemma DecodeFirst(a: Bytes, b: Bytes, n: nat)
    requires HEADER_SIZE < n <= |a| && n == LoadLE(a[..HEADER_SIZE])
    ensures Decode(a + b) == Decoded([a[HEADER_SIZE..n]], []).Then(Decode(a[n..] + b))
    ensures Decode(a) == Decoded([a[HEADER_SIZE..n]], []).Then(Decode(a[n..]))
  {
    assert (a + b)[..HEADER_SIZE] == a[..HEADER_SIZE];
    assert (a + b)[n..] == a[n..] + b;
    assert (a + b)[HEADER_SIZE..n] == a[HEADER_SIZE..n];
  }

  lemma DecodeJoin(a: Bytes, b: Bytes, xs: seq<Bytes>, t: Bytes, ys: seq<Bytes>, t': Bytes)
    requires Decode(a) == Decoded(xs, t) && Decode(t + b) == Decoded(ys, t')
    ensures Decode(a + b) == Decoded(xs + ys, t')
  {
    DecodeSplit(a, b);
  }

  function Flatten(chunks: seq<Bytes>): Bytes {
    if chunks == [] then [] else chunks[0] + Flatten(chunks[1..])
  }

  /** Decoding chunk by chunk, keeping only the tail in between. */
  function DecodeChunks(tail: Bytes, chunks: seq<Bytes>): Decoded
    decreases |chunks|
  {
    if chunks == [] then Decoded([], tail)
    else
      var d := Decode(tail + chunks[0]);
      d.Then(DecodeChunks(d.rest, chunks[1..]))
  }

  /** Chunk independence: every split of a byte string decodes to the same
      messages and leaves the same tail. */
  lemma {:induction false} ChunkIndependence(tail: Bytes, chunks: seq<Bytes>)
    requires Incomplete(tail)
    ensures DecodeChunks(tail, chunks) == Decode(tail + Flatten(chunks))
    decreases |chunks|
  {
    if chunks == [] {
      assert tail + [] == tail;
    } else {
      var first, more := tail + chunks[0], Flatten(chunks[1..]);
      assert tail + Flatten(chunks) == first + more;
      DecodeSplit(first, more);
      RestIsIncomplete(first);
      ChunkIndependence(Decode(first).rest, chunks[1..]);
    }
  }

  /** Round trip: the frames of any list of payloads decode to exactly those payloads. */
  lemma {:induction false} RoundTrip(payloads: seq<Bytes>)
    requires forall p :: p in payloads ==> Sendable(p)
    ensures Decode(Frames(payloads)) == Decoded(payloads, [])
    decreases |payloads|
  {
    if payloads != [] {
      var f, fs := Frame(payloads[0]), Frames(payloads[1..]);
      RoundTrip(payloads[1..]);
      assert f[..HEADER_SIZE] == StoreLE(|f|) && f[HEADER_SIZE..] == payloads[0];
      DecodeFirst(f, fs, |f|);
      assert f[|f|..] + fs == fs;
      assert payloads == [payloads[0]] + payloads[1..];
    }
  }

  /** Whatever part of the frames has arrived, what it decodes to is a prefix of the payloads. */
  lemma PrefixDecodesToPrefix(payloads: seq<Bytes>, arrived: Bytes)
    requires forall p :: p in payloads ==> Sendable(p)
    requires arrived <= Frames(payloads)
    ensures Decode(arrived).messages <= payloads
    ensures arrived == Frames(payloads) ==> Decode(arrived) == Decoded(payloads, [])
  {
    var missing := Frames(payloads)[|arrived|..];
    assert arrived + missing == Frames(payloads);
    DecodeSplit(arrived, missing);
    RoundTrip(payloads);
  }

  lemma {:induction false} FramesAppend(payloads: seq<Bytes>, p: Bytes)
    requires forall q :: q in payloads ==> Sendable(q)
    requires Sendable(p)
    ensures Frames(payloads + [p]) == Frames(payloads) + Frame(p)
    decreases |payloads|
  {
    if payloads == [] {
      assert [] + [p] == [p] && Frames([p][1..]) == [];
    } else {
      assert (payloads + [p])[1..] == payloads[1..] + [p];
      FramesAppend(payloads[1..], p);
    }
  }
}
