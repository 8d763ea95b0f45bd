/** The path of decrypted records into the slicer.  Unlike the TCP path it hands each
    chunk to the slicer once, so it depends on where records end. */
module Tls {
  import opened Framing
  import opened Slicer

  /** `b` reaches at most to the end of one well-formed frame. */
  predicate FitsFrame(b: Bytes) {
    |b| < HEADER_SIZE || (var n := LoadLE(b[..HEADER_SIZE]); HEADER_SIZE < n && |b| <= n)
  }

  /** The slicer takes all of a chunk in one call, without complaint, exactly when the
      chunk does not go past the end of the current frame. */
  lemma TakenWholeIffFits(t: Bytes, c: Bytes)
    requires Incomplete(t)
    ensures FitsFrame(t + c) <==> Consumed(t, c) == |c| && !MeetsInvalidHeader(t, c)
  {
    if |t| >= HEADER_SIZE {
      assert (t + c)[..HEADER_SIZE] == t[..HEADER_SIZE];
    }
  }

  /** Cut into chunks the size of the buffer, no chunk of the record goes past the end of a frame. */
  predicate ChunksFit(t: Bytes, record: Bytes)
    decreases |record|
  {
    record == [] ||
    (var n := Min(MAX_SIZE, |record|);
     FitsFrame(t + record[..n]) && ChunksFit(Decode(t + record[..n]).rest, record[n..]))
  }

  /** One chunk through the buffer and one call of the slicer. */
  method FeedChunk(slicer: DatagramMessageSlicer, chunk: Bytes) returns (invalidHeader: bool)
    requires slicer.Valid() && !slicer.buffer.IsValid()
    requires 0 < |chunk| <= MAX_SIZE
    modifies slicer, slicer.buffer, slicer.buffer.data
    ensures slicer.Valid()
    ensures !invalidHeader && !slicer.buffer.IsValid() <==> FitsFrame(old(slicer.Tail()) + chunk)
    ensures !invalidHeader && !slicer.buffer.IsValid() ==>
              Fed(old(slicer.Tail()), chunk, old(slicer.Payloads()), slicer.Payloads(), slicer.Tail())
  {
    ghost var t := slicer.Tail();
    slicer.buffer.Fill(chunk);
    invalidHeader := slicer.ProcessBuffer();
    TakenWholeIffFits(t, chunk);
    assert chunk[..|chunk|] == chunk;
  }

  /** From tail `t`, the bytes `b` add the messages by which `ps'` extends `ps` and leave tail `t'`. */
  ghost predicate Fed(t: Bytes, b: Bytes, ps: seq<Bytes>, ps': seq<Bytes>, t': Bytes) {
    ps <= ps' && Decode(t + b) == Decoded(ps'[|ps|..], t')
  }

  lemma FedNothing(t: Bytes, ps: seq<Bytes>)
    requires Incomplete(t)
    ensures Fed(t, [], ps, ps, t)
  {
    assert t + [] == t && ps[|ps|..] == [];
  }

  lemma FedOn(t: Bytes, b: Bytes, ps: seq<Bytes>, ps': seq<Bytes>, t': Bytes, c: Bytes, ps'': seq<Bytes>, t'': Bytes)
    requires Fed(t, b, ps, ps', t') && Fed(t', c, ps', ps'', t'')
    ensures Fed(t, b + c, ps, ps'', t'')
  {
    DecodeJoin(t + b, c, ps'[|ps|..], t', ps''[|ps'|..], t'');
    Regroup(t, b, c);
    Extensions(ps, ps', ps'');
  }

  lemma Extensions(ps: seq<Bytes>, ps': seq<Bytes>, ps'': seq<Bytes>)
    requires ps <= ps' <= ps''
    ensures ps'[|ps|..] + ps''[|ps'|..] == ps''[|ps|..]
  {
  }

  /** Feeds one decrypted record to the slicer; `threw` covers both exceptions.  The first
      is for bytes that an earlier record has left in the buffer. */
  method TlsRecordReceived(slicer: DatagramMessageSlicer, data: Bytes) returns (threw: bool)
    requires slicer.Valid()
    modifies slicer, slicer.buffer, slicer.buffer.data
    ensures slicer.Valid()
    ensures old(slicer.buffer.IsValid()) ==>
              && threw == (data != []) && unchanged(slicer) && unchanged(slicer.buffer)
              && slicer.buffer.data[..] == old(slicer.buffer.data[..])
    ensures !old(slicer.buffer.IsValid()) ==>
              (!threw && !slicer.buffer.IsValid() <==> ChunksFit(old(slicer.Tail()), data))
    ensures !old(slicer.buffer.IsValid()) && ChunksFit(old(slicer.Tail()), data) ==>
              Fed(old(slicer.Tail()), data, old(slicer.Payloads()), slicer.Payloads(), slicer.Tail())
  {
    if slicer.buffer.IsValid() {
      return data != [];
    }
    threw := FeedRecord(slicer, data);
  }

  /** The same, starting from an empty buffer. */
  method FeedRecord(slicer: DatagramMessageSlicer, data: Bytes) returns (threw: bool)
    requires slicer.Valid() && !slicer.buffer.IsValid()
    modifies slicer, slicer.buffer, slicer.buffer.data
    ensures slicer.Valid()
    ensures !threw && !slicer.buffer.IsValid() <==> ChunksFit(old(slicer.Tail()), data)
    ensures ChunksFit(old(slicer.Tail()), data) ==>
              Fed(old(slicer.Tail()), data, old(slicer.Payloads()), slicer.Payloads(), slicer.Tail())
  {
    ghost var tail, ps := slicer.Tail(), slicer.Payloads();
    var pos := 0;
    FedUpToStart(tail, data, ps);
    while pos < |data|
      invariant 0 <= pos <= |data| && slicer.Valid()
      invariant Feeding(tail, data, pos, ps, slicer.Payloads(), slicer.Tail(), !slicer.buffer.IsValid())
    {
      if slicer.buffer.IsValid() {
        return true;
      }
      var n := Min(MAX_SIZE, |data| - pos);
      ghost var t, ps' := slicer.Tail(), slicer.Payloads();
      var invalidHeader := FeedChunk(slicer, data[pos..pos + n]);
      FeedingNext(tail, data, pos, n, ps, ps', t, slicer.Payloads(), slicer.Tail(),
                  !invalidHeader && !slicer.buffer.IsValid());
      if invalidHeader {
        return true;
      }
      pos := pos + n;
    }
    FeedingEnds(tail, data, ps, slicer.Payloads(), slicer.Tail(), !slicer.buffer.IsValid());
    threw := false;
  }

  /** The first `pos` bytes of a record are fed, and whether the record fits is open still. */
  ghost predicate FedUpTo(tail: Bytes, data: Bytes, pos: nat, ps: seq<Bytes>, ps': seq<Bytes>, t: Bytes) {
    && pos <= |data| && (ChunksFit(t, data[pos..]) <==> ChunksFit(tail, data))
    && Fed(tail, data[..pos], ps, ps', t)
  }

  lemma FedUpToStart(tail: Bytes, data: Bytes, ps: seq<Bytes>)
    requires Incomplete(tail)
    ensures FedUpTo(tail, data, 0, ps, ps, tail)
  {
    FedNothing(tail, ps);
    assert data[0..] == data;
  }

  lemma FedUpToNext(tail: Bytes, data: Bytes, pos: nat, n: nat, ps: seq<Bytes>, ps': seq<Bytes>, t: Bytes,
                    ps'': seq<Bytes>, t': Bytes)
    requires pos < |data| && n == Min(MAX_SIZE, |data| - pos) && FedUpTo(tail, data, pos, ps, ps', t)
    requires FitsFrame(t + data[pos..pos + n]) ==> Fed(t, data[pos..pos + n], ps', ps'', t')
    ensures FitsFrame(t + data[pos..pos + n]) ==> FedUpTo(tail, data, pos + n, ps, ps'', t')
    ensures !FitsFrame(t + data[pos..pos + n]) ==> !ChunksFit(tail, data)
  {
    var chunk := data[pos..pos + n];
    ChunksFitStep(t, data, pos, n);
    if FitsFrame(t + chunk) {
      FedRest(t, chunk, ps', ps'', t');
      FedOn(tail, data[..pos], ps, ps', t, chunk, ps'', t');
      assert data[..pos] + chunk == data[..pos + n];
    }
  }

  lemma FedRest(t: Bytes, b: Bytes, ps: seq<Bytes>, ps': seq<Bytes>, t': Bytes)
    requires Fed(t, b, ps, ps', t')
    ensures Decode(t + b).rest == t'
  {
  }

  /** The same while the record has fit so far; otherwise it is known not to fit. */
  ghost predicate Feeding(tail: Bytes, data: Bytes, pos: nat, ps: seq<Bytes>, ps': seq<Bytes>, t: Bytes, fits: bool) {
    if fits then FedUpTo(tail, data, pos, ps, ps', t) else !ChunksFit(tail, data)
  }

  lemma FeedingNext(tail: Bytes, data: Bytes, pos: nat, n: nat, ps: seq<Bytes>, ps': seq<Bytes>, t: Bytes,
                    ps'': seq<Bytes>, t': Bytes, fits: bool)
    requires pos < |data| && n == Min(MAX_SIZE, |data| - pos) && Feeding(tail, data, pos, ps, ps', t, true)
    requires fits <==> FitsFrame(t + data[pos..pos + n])
    requires fits ==> Fed(t, data[pos..pos + n], ps', ps'', t')
    ensures Feeding(tail, data, pos + n, ps, ps'', t', fits)
  {
    FedUpToNext(tail, data, pos, n, ps, ps', t, ps'', t');
  }

  lemma FeedingEnds(tail: Bytes, data: Bytes, ps: seq<Bytes>, ps': seq<Bytes>, t: Bytes, fits: bool)
    requires Feeding(tail, data, |data|, ps, ps', t, fits)
    ensures fits <==> ChunksFit(tail, data)
    ensures fits ==> Fed(tail, data, ps, ps', t)
  {
    assert data[..|data|] == data;
  }

  lemma ChunksFitStep(t: Bytes, data: Bytes, pos: nat, n: nat)
    requires pos < |data| && n == Min(MAX_SIZE, |data| - pos)
    ensures ChunksFit(t, data[pos..])
            <==> FitsFrame(t + data[pos..pos + n]) && ChunksFit(Decode(t + data[pos..pos + n]).rest, data[pos + n..])
  {
    assert data[pos..][..n] == data[pos..pos + n] && data[pos..][n..] == data[pos + n..];
  }

  // ---------------------------------------------------------------- records as the sender makes them

  /** Every record, arriving behind the tail the previous ones left, fits. */
  predicate AllFit(t: Bytes, records: seq<Bytes>)
    decreases |records|
  {
    records == [] ||
    (ChunksFit(t, records[0]) && AllFit(Decode(t + records[0]).rest, records[1..]))
  }

  /** A record that does not go past the end of a frame may be cut into chunks anywhere. */
  lemma {:induction false} RecordFits(t: Bytes, record: Bytes)
    requires FitsFrame(t + record) && (record != [] ==> Incomplete(t))
    ensures ChunksFit(t, record)
    decreases |record|
  {
    if record != [] {
      var n := Min(MAX_SIZE, |record|);
      var b := t + record[..n];
      assert b + record[n..] == t + record;
      if |b| >= HEADER_SIZE {
        assert b[..HEADER_SIZE] == (t + record)[..HEADER_SIZE];
      }
      if n < |record| {
        assert Decode(b).rest == b;
        RecordFits(b, record[n..]);
      }
    }
  }

  /** The pieces of a frame's payload, behind what has arrived of that frame, all fit. */
  lemma {:induction false} PiecesFit(t: Bytes, pieces: seq<Bytes>, more: seq<Bytes>)
    requires |t| >= HEADER_SIZE && LoadLE(t[..HEADER_SIZE]) == |t| + |Flatten(pieces)| && Incomplete(t)
    requires AllFit([], more)
    ensures AllFit(t, pieces + more)
    decreases |pieces|
  {
    assert pieces != [];
    var p, rest := pieces[0], pieces[1..];
    var b := t + p;
    assert Flatten(pieces) == p + Flatten(rest);
    assert b[..HEADER_SIZE] == t[..HEADER_SIZE];
    RecordFits(t, p);
    assert pieces + more == [p] + (rest + more);
    if |b| < LoadLE(b[..HEADER_SIZE]) {
      PiecesFit(b, rest, more);
    } else {
      assert b[|b|..] == [];
      assert Decode(b).rest == [];
      EmptyPiecesFit(rest, more);
    }
  }

  lemma {:induction false} EmptyPiecesFit(pieces: seq<Bytes>, more: seq<Bytes>)
    requires Flatten(pieces) == [] && AllFit([], more)
    ensures AllFit([], pieces + more)
    decreases |pieces|
  {
    if pieces == [] {
      assert pieces + more == more;
    } else {
      assert pieces[0] == [] && Flatten(pieces[1..]) == [];
      assert (pieces + more)[1..] == pieces[1..] + more;
      EmptyPiecesFit(pieces[1..], more);
    }
  }

  /** The records of one message: the header on its own, then the payload in any pieces. */
  function RecordsOf(pieces: seq<Bytes>): seq<Bytes>
    requires Sendable(Flatten(pieces))
  {
    [StoreLE(|Flatten(pieces)| + HEADER_SIZE)] + pieces
  }

  function Records(messages: seq<seq<Bytes>>): seq<Bytes>
    requires forall m :: m in messages ==> Sendable(Flatten(m))
  {
    if messages == [] then [] else RecordsOf(messages[0]) + Records(messages[1..])
  }

  lemma AllFitFirst(t: Bytes, record: Bytes, more: seq<Bytes>)
    requires ChunksFit(t, record) && AllFit(Decode(t + record).rest, more)
    ensures AllFit(t, [record] + more)
  {
    assert ([record] + more)[1..] == more;
  }

  lemma HeaderAlone(n: nat)
    requires HEADER_SIZE < n < U32
    ensures var h := StoreLE(n);
            h[..HEADER_SIZE] == h && FitsFrame(h) && Incomplete(h) && Decode(h) == Decoded([], h)
  {
    var h := StoreLE(n);
    assert h[..HEADER_SIZE] == h;
  }

  lemma HeaderFits(n: nat)
    requires HEADER_SIZE < n < U32
    ensures ChunksFit([], StoreLE(n)) && Decode([] + StoreLE(n)).rest == StoreLE(n)
  {
    HeaderAlone(n);
    var h := StoreLE(n);
    assert [] + h == h;
    RecordFits([], h);
  }

  lemma PiecesFitBehind(h: Bytes, pieces: seq<Bytes>, more: seq<Bytes>)
    requires |h| == HEADER_SIZE && LoadLE(h) == |Flatten(pieces)| + HEADER_SIZE && Flatten(pieces) != []
    requires AllFit([], more)
    ensures AllFit(h, pieces + more)
  {
    assert h[..HEADER_SIZE] == h;
    PiecesFit(h, pieces, more);
  }

  lemma RecordsOfFit(pieces: seq<Bytes>, more: seq<Bytes>)
    requires Sendable(Flatten(pieces)) && AllFit([], more)
    ensures AllFit([], RecordsOf(pieces) + more)
  {
    var n := |Flatten(pieces)| + HEADER_SIZE;
    PiecesFitBehind(StoreLE(n), pieces, more);
    HeaderThenFit(n, pieces + more);
    HeaderFirst(pieces, more);
  }

  lemma HeaderFirst(pieces: seq<Bytes>, more: seq<Bytes>)
    requires Sendable(Flatten(pieces))
    ensures RecordsOf(pieces) + more == [StoreLE(|Flatten(pieces)| + HEADER_SIZE)] + (pieces + more)
  {
  }

  lemma HeaderThenFit(n: nat, records: seq<Bytes>)
    requires HEADER_SIZE < n < U32 && AllFit(StoreLE(n), records)
    ensures AllFit([], [StoreLE(n)] + records)
  {
    HeaderFits(n);
    AllFitFirst([], StoreLE(n), records);
  }

  lemma {:induction false} FlattenAppend(a: seq<Bytes>, b: seq<Bytes>)
    ensures Flatten(a + b) == Flatten(a) + Flatten(b)
    decreases |a|
  {
    if a == [] {
      assert a + b == b;
    } else {
      assert (a + b)[1..] == a[1..] + b;
      FlattenAppend(a[1..], b);
    }
  }

  function Joined(messages: seq<seq<Bytes>>): seq<Bytes> {
    seq(|messages|, i requires 0 <= i < |messages| => Flatten(messages[i]))
  }

  /** Records made by the sender never cross the end of a frame, however the record layer
      cuts the payloads. */
  lemma {:induction false} SenderRecordsFit(messages: seq<seq<Bytes>>)
    requires forall m :: m in messages ==> Sendable(Flatten(m))
    ensures AllFit([], Records(messages))
    decreases |messages|
  {
    if messages != [] {
      SenderRecordsFit(messages[1..]);
      RecordsOfFit(messages[0], Records(messages[1..]));
    }
  }

  /** Together they are the frames of the payloads. */
  lemma {:induction false} SenderRecordsAreFrames(messages: seq<seq<Bytes>>)
    requires forall m :: m in messages ==> Sendable(Flatten(m))
    ensures Flatten(Records(messages)) == Frames(Joined(messages))
    decreases |messages|
  {
    if messages != [] {
      SenderRecordsAreFrames(messages[1..]);
      FlattenAppend(RecordsOf(messages[0]), Records(messages[1..]));
      assert RecordsOf(messages[0])[1..] == messages[0];
      assert Joined(messages)[1..] == Joined(messages[1..]);
    }
  }

  lemma FedDecoded(b: Bytes, ps: seq<Bytes>, ps': seq<Bytes>, t: Bytes, ms: seq<Bytes>)
    requires Fed([], b, ps, ps', t) && Decode(b) == Decoded(ms, [])
    ensures ps' == ps + ms && t == []
  {
    assert [] + b == b;
  }

  lemma FedFrames(messages: seq<seq<Bytes>>, ps: seq<Bytes>, ps': seq<Bytes>, t: Bytes)
    requires forall m :: m in messages ==> Sendable(Flatten(m))
    requires Fed([], Flatten(Records(messages)), ps, ps', t)
    ensures ps' == ps + Joined(messages) && t == []
  {
    SenderRecordsAreFrames(messages);
    RoundTrip(Joined(messages));
    FedDecoded(Flatten(Records(messages)), ps, ps', t, Joined(messages));
  }

  /** All records of a connection, one after the other. */
  method ReceiveRecords(slicer: DatagramMessageSlicer, records: seq<Bytes>) returns (threw: bool)
    requires slicer.Valid() && !slicer.buffer.IsValid()
    requires AllFit(slicer.Tail(), records)
    modifies slicer, slicer.buffer, slicer.buffer.data
    ensures slicer.Valid() && !threw && !slicer.buffer.IsValid()
    ensures Fed(old(slicer.Tail()), Flatten(records), old(slicer.Payloads()), slicer.Payloads(), slicer.Tail())
  {
    ghost var tail, ps := slicer.Tail(), slicer.Payloads();
    RecordsFedNone(tail, records, ps);
    threw := false;
    var i := 0;
    while i < |records|
      invariant 0 <= i <= |records| && slicer.Valid() && !threw && !slicer.buffer.IsValid()
      invariant RecordsFed(tail, records, i, ps, slicer.Payloads(), slicer.Tail())
    {
      ghost var t, ps' := slicer.Tail(), slicer.Payloads();
      NextFits(t, records, i);
      threw := TlsRecordReceived(slicer, records[i]);
      RecordsFedNext(tail, records, i, ps, ps', t, slicer.Payloads(), slicer.Tail());
      i := i + 1;
    }
    assert records[..i] == records;
  }

  /** The first `i` records have been fed, and the others fit. */
  ghost predicate RecordsFed(tail: Bytes, records: seq<Bytes>, i: nat, ps: seq<Bytes>, ps': seq<Bytes>, t: Bytes) {
    i <= |records| && AllFit(t, records[i..]) && Fed(tail, Flatten(records[..i]), ps, ps', t)
  }

  lemma RecordsFedNone(tail: Bytes, records: seq<Bytes>, ps: seq<Bytes>)
    requires Incomplete(tail) && AllFit(tail, records)
    ensures RecordsFed(tail, records, 0, ps, ps, tail)
  {
    FedNothing(tail, ps);
    assert records[0..] == records;
  }

  lemma NextFits(t: Bytes, records: seq<Bytes>, i: nat)
    requires i < |records| && AllFit(t, records[i..])
    ensures ChunksFit(t, records[i]) && AllFit(Decode(t + records[i]).rest, records[i + 1..])
  {
    assert records[i..][1..] == records[i + 1..];
  }

  lemma RecordsFedNext(tail: Bytes, records: seq<Bytes>, i: nat, ps: seq<Bytes>, ps': seq<Bytes>, t: Bytes,
                       ps'': seq<Bytes>, t': Bytes)
    requires i < |records| && RecordsFed(tail, records, i, ps, ps', t) && Fed(t, records[i], ps', ps'', t')
    ensures RecordsFed(tail, records, i + 1, ps, ps'', t')
  {
    NextFits(t, records, i);
    FedRest(t, records[i], ps', ps'', t');
    FedOn(tail, Flatten(records[..i]), ps, ps', t, records[i], ps'', t');
    FlattenLast(records, i);
  }

  lemma FlattenLast(records: seq<Bytes>, i: nat)
    requires i < |records|
    ensures Flatten(records[..i + 1]) == Flatten(records[..i]) + records[i]
  {
    assert records[..i + 1] == records[..i] + [records[i]];
    FlattenAppend(records[..i], [records[i]]);
    var last := [records[i]];
    assert last[1..] == [] && Flatten(last) == records[i] + [] == records[i];
  }

  /** The record path agrees with the one-shot decoder on everything the sender produces:
      it never throws and gives out exactly the payloads. */
  method TlsRoundTrip(slicer: DatagramMessageSlicer, messages: seq<seq<Bytes>>) returns (threw: bool)
    requires slicer.Valid() && !slicer.buffer.IsValid() && slicer.Tail() == []
    requires forall m :: m in messages ==> Sendable(Flatten(m))
    modifies slicer, slicer.buffer, slicer.buffer.data
    ensures slicer.Valid() && !threw && !slicer.buffer.IsValid()
    ensures slicer.Payloads() == old(slicer.Payloads()) + Joined(messages) && slicer.Tail() == []
  {
    ghost var ps := slicer.Payloads();
    SenderRecordsFit(messages);
    threw := ReceiveRecords(slicer, Records(messages));
    FedFrames(messages, ps, slicer.Payloads(), slicer.Tail());
  }
}
