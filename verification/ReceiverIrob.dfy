/** Reassembly of one IROB at the receiver: the chunk table with its counters, filled by
    chunks in any order with duplicates, then drained as one byte queue. */
module ReceiverIrob {
  import opened Sequences

  datatype Chunk = Chunk(seqno: nat, offset: nat, data: seq<byte>)

  /** A chunk as handed to `AddChunk`; a placeholder's empty slots carry no data. */
  datatype Incoming = Incoming(seqno: nat, offset: nat, data: Option<seq<byte>>)

  type Table = seq<Option<Chunk>>

  datatype Body = Body(chunks: Table, partial: Option<seq<byte>>, offset: nat,
                       numBytes: int, expectedBytes: int, expectedChunks: int,
                       recvdBytes: int, recvdChunks: int, complete: bool, released: bool)

  function Fresh(): Body {
    Body([], None, 0, 0, -1, -1, 0, 0, false, false)
  }

  function Data(c: Option<Chunk>): seq<byte> {
    if c.Some? then c.value.data else []
  }

  /** The bytes in the table, in seqno order. */
  function Stored(t: Table): seq<byte> {
    if t == [] then [] else Data(t[0]) + Stored(t[1..])
  }

  function Count(t: Table): nat {
    if t == [] then 0 else (if t[0].Some? then 1 else 0) + Count(t[1..])
  }

  predicate AllPresent(t: Table) {
    forall i :: 0 <= i < |t| ==> t[i].Some?
  }

  predicate Has(t: Table, i: nat) {
    i < |t| && t[i].Some?
  }

  function Grow(t: Table, n: nat): Table {
    if n <= |t| then t else t + seq(n - |t|, _ => None)
  }

  predicate IsComplete(b: Body) {
    && b.expectedBytes == b.recvdBytes
    && b.expectedChunks == b.recvdChunks
    && AllPresent(b.chunks)
    && b.complete
  }

  predicate SeenEnd(b: Body) {
    b.expectedBytes != -1
  }

  /** What `is_complete` asserts on entry. */
  predicate CountersSane(b: Body) {
    && (b.recvdBytes <= b.expectedBytes || b.expectedBytes == -1)
    && (b.expectedChunks == -1 || b.recvdChunks <= b.expectedChunks)
  }

  function ToSlot(c: Incoming): Option<Chunk> {
    if c.data.Some? then Some(Chunk(c.seqno, c.offset, c.data.value)) else None
  }

  function DataLength(c: Incoming): nat {
    if c.data.Some? then |c.data.value| else 0
  }

  datatype Outcome = Outcome(body: Body, ok: bool)

  function AddChunk(b: Body, c: Incoming): Outcome {
    if IsComplete(b) || (b.expectedChunks != -1 && c.seqno >= b.expectedChunks) then
      Outcome(b, false)
    else
      var t := Grow(b.chunks, c.seqno + 1);
      if t[c.seqno].Some? then
        var existing := t[c.seqno].value;
        Outcome(b, c.offset == existing.offset && DataLength(c) == |existing.data|)
      else
        Outcome(b.(chunks := t[c.seqno := ToSlot(c)],
                   numBytes := b.numBytes + DataLength(c),
                   recvdBytes := b.recvdBytes + DataLength(c),
                   recvdChunks := b.recvdChunks + 1), true)
  }

  function Finish(b: Body, bytes: int, chunks: int): Outcome {
    if IsComplete(b) then Outcome(b, false)
    else if b.expectedBytes == -1 || b.expectedChunks == -1 then
      Outcome(b.(complete := true, expectedBytes := bytes, expectedChunks := chunks), |b.chunks| <= chunks)
    else
      Outcome(b.(complete := true), false)
  }

  /** The seqnos below `n` that the table lacks, in order. */
  function MissingBelow(t: Table, n: nat): seq<nat> {
    if n == 0 then []
    else MissingBelow(t, n - 1) + (if Has(t, n - 1) then [] else [n - 1])
  }

  function Missing(b: Body): seq<nat> {
    MissingBelow(b.chunks, if b.expectedChunks > |b.chunks| then b.expectedChunks else |b.chunks|)
  }

  lemma {:induction false} MissingBelowIs(t: Table, n: nat)
    ensures forall i :: i in MissingBelow(t, n) <==> 0 <= i < n && !Has(t, i)
  {
    if n > 0 {
      MissingBelowIs(t, n - 1);
    }
  }

  /** Adds every slot of a table again, as `subsume` does, from slot `i` on. */
  function Replay(b: Body, t: Table, i: nat): Body
    requires i <= |t|
    decreases |t| - i
  {
    if i == |t| then b else Replay(AddChunk(b, FromSlot(t[i])).body, t, i + 1)
  }

  function FromSlot(c: Option<Chunk>): Incoming {
    if c.Some? then Incoming(c.value.seqno, c.value.offset, Some(c.value.data)) else Incoming(0, 0, None)
  }

  function Subsume(b: Body, other: Body): Body {
    Replay(b, other.chunks, 0).(
      offset := other.offset, numBytes := other.numBytes,
      expectedBytes := other.expectedBytes, expectedChunks := other.expectedChunks,
      recvdBytes := other.recvdBytes, recvdChunks := other.recvdChunks,
      partial := other.partial, complete := other.complete)
  }

  /** A chunk is taken exactly when the IROB is not complete, the seqno is not beyond what the End
      announced, and what is there already, if anything, has the same offset and length; it changes
      the table and the counters exactly when its slot was empty. */
  lemma ChunkTakenIff(b: Body, c: Incoming)
    ensures var r := AddChunk(b, c);
            && (r.ok <==> !IsComplete(b) && (b.expectedChunks == -1 || c.seqno < b.expectedChunks)
                          && (Has(b.chunks, c.seqno) ==> c.offset == b.chunks[c.seqno].value.offset
                                                         && DataLength(c) == |Data(b.chunks[c.seqno])|))
            && (!r.ok || Has(b.chunks, c.seqno) ==> r.body == b)
            && (r.ok && !Has(b.chunks, c.seqno) ==>
                  && r.body == b.(chunks := r.body.chunks, numBytes := b.numBytes + DataLength(c),
                                  recvdBytes := b.recvdBytes + DataLength(c), recvdChunks := b.recvdChunks + 1)
                  && |r.body.chunks| == (if c.seqno < |b.chunks| then |b.chunks| else c.seqno + 1)
                  && r.body.chunks[c.seqno] == ToSlot(c)
                  && forall i :: 0 <= i < |r.body.chunks| && i != c.seqno ==>
                       r.body.chunks[i] == if i < |b.chunks| then b.chunks[i] else None)
  {
  }

  /** The End is taken once: it sets what to expect the first time and is refused afterwards, as it is
      when the table already holds more chunks than it announces. */
  lemma EndTakenIff(b: Body, bytes: nat, count: nat)
    requires b.expectedBytes == -1 <==> b.expectedChunks == -1
    ensures var r := Finish(b, bytes, count);
            && (r.ok <==> b.expectedBytes == -1 && !IsComplete(b) && |b.chunks| <= count)
            && r.body.complete
            && (b.expectedBytes != -1 ==> r.body == b.(complete := true))
            && (b.expectedBytes == -1 && !IsComplete(b) ==>
                  r.body == b.(complete := true, expectedBytes := bytes, expectedChunks := count))
  {
  }

  // ----- The byte queue -----

  /** What is left of a partly read chunk. */
  function Tail(partial: Option<seq<byte>>, offset: nat): seq<byte> {
    if partial.Some? && offset <= |partial.value| then partial.value[offset..] else []
  }

  function Unread(b: Body): seq<byte> {
    Tail(b.partial, b.offset) + Stored(b.chunks)
  }

  /** A partly read chunk has something left, and only such a chunk has an offset. */
  predicate Readable(b: Body) {
    && AllPresent(b.chunks)
    && (b.partial.Some? ==> b.offset < |b.partial.value|)
    && (b.partial.None? ==> b.offset == 0)
  }

  datatype Rest = Rest(chunks: Table, partial: Option<seq<byte>>, offset: nat)

  function Consume(t: Table, n: nat): Rest {
    if n == 0 || t == [] then Rest(t, None, 0)
    else if |Data(t[0])| > n then Rest(t[1..], Some(Data(t[0])), n)
    else Consume(t[1..], n - |Data(t[0])|)
  }

  function RemoveBytes(b: Body, n: nat): Body
    requires Readable(b)
  {
    var left := if b.partial.Some? then |b.partial.value| - b.offset else 0;
    var size := Min(n, |Unread(b)|);
    if n < left then b.(offset := b.offset + n, numBytes := b.numBytes - size)
    else
      var r := Consume(b.chunks, n - left);
      b.(chunks := r.chunks, partial := r.partial, offset := r.offset, numBytes := b.numBytes - size)
  }

  lemma {:induction false} ConsumeDrops(t: Table, n: nat)
    requires AllPresent(t)
    ensures var r := Consume(t, n);
            && AllPresent(r.chunks)
            && (r.partial.Some? ==> r.offset < |r.partial.value|)
            && (r.partial.None? ==> r.offset == 0)
            && Tail(r.partial, r.offset) + Stored(r.chunks) == Stored(t)[Min(n, |Stored(t)|)..]
  {
    if n > 0 && t != [] {
      var d := Data(t[0]);
      assert Stored(t) == d + Stored(t[1..]);
      if |d| <= n {
        ConsumeDrops(t[1..], n - |d|);
        assert Stored(t)[Min(n, |Stored(t)|)..] == Stored(t[1..])[Min(n - |d|, |Stored(t[1..])|)..];
      } else {
        assert Stored(t)[n..] == d[n..] + Stored(t[1..]);
      }
    } else {
      assert Stored(t)[Min(n, |Stored(t)|)..] == Stored(t);
    }
  }

  /** The partly read chunk first, then the table. */
  lemma RemoveParts(b: Body, n: nat)
    requires Readable(b)
    ensures var size := |Tail(b.partial, b.offset)|;
            var r := Consume(b.chunks, if n < size then 0 else n - size);
            RemoveBytes(b, n) ==
              if n < size then b.(offset := b.offset + n, numBytes := b.numBytes - n)
              else b.(chunks := r.chunks, partial := r.partial, offset := r.offset,
                      numBytes := b.numBytes - size - Min(n - size, |Stored(b.chunks)|))
  {
    hide Consume;
  }

  /** Removing bytes drops them off the front of what is unread, and nothing else. */
  lemma RemoveBytesDrops(b: Body, n: nat)
    requires Readable(b)
    ensures var size := Min(n, |Unread(b)|);
            var a := RemoveBytes(b, n);
            && Readable(a) && Unread(a) == Unread(b)[size..] && a.numBytes == b.numBytes - size
  {
    var head := Tail(b.partial, b.offset);
    if n >= |head| {
      ConsumeDrops(b.chunks, n - |head|);
      assert Unread(b)[Min(n, |Unread(b)|)..] == Stored(b.chunks)[Min(n - |head|, |Stored(b.chunks)|)..];
    } else {
      assert Unread(b)[n..] == head[n..] + Stored(b.chunks);
    }
  }

  // ----- Tables -----

  lemma Reassociate(x: seq<byte>, y: seq<byte>, z: seq<byte>)
    ensures x + (y + z) == (x + y) + z
  {
  }

  lemma {:induction false} StoredAppend(a: Table, b: Table)
    ensures Stored(a + b) == Stored(a) + Stored(b)
    ensures Count(a + b) == Count(a) + Count(b)
  {
    if a == [] {
      assert a + b == b;
    } else {
      assert (a + b)[1..] == a[1..] + b && (a + b)[0] == a[0];
      StoredAppend(a[1..], b);
      Reassociate(Data(a[0]), Stored(a[1..]), Stored(b));
    }
  }

  lemma {:induction false} EmptySlots(n: nat)
    ensures Stored(seq(n, _ => None)) == [] && Count(seq(n, _ => None)) == 0
  {
    if n > 0 {
      var t: Table := seq(n, _ => None);
      assert t[1..] == seq(n - 1, _ => None);
      EmptySlots(n - 1);
    }
  }

  lemma GrowKeeps(t: Table, n: nat)
    ensures Stored(Grow(t, n)) == Stored(t) && Count(Grow(t, n)) == Count(t)
  {
    if n > |t| {
      StoredAppend(t, seq(n - |t|, _ => None));
      EmptySlots(n - |t|);
    }
  }

  lemma FillSlot(t: Table, i: nat, c: Chunk)
    requires i < |t| && t[i].None?
    ensures |Stored(t[i := Some(c)])| == |Stored(t)| + |c.data|
    ensures Count(t[i := Some(c)]) == Count(t) + 1
  {
    var u := t[i := Some(c)];
    SplitAt(t, i);
    SplitAt(u, i);
    assert u[..i] == t[..i] && u[i + 1..] == t[i + 1..];
  }

  lemma {:induction false} SplitAt(t: Table, i: nat)
    requires i < |t|
    ensures Stored(t) == Stored(t[..i]) + Data(t[i]) + Stored(t[i + 1..])
    ensures Count(t) == Count(t[..i]) + (if t[i].Some? then 1 else 0) + Count(t[i + 1..])
  {
    if i > 0 {
      SplitAt(t[1..], i - 1);
      assert t[1..][..i - 1] == t[..i][1..];
      assert t[1..][i..] == t[i + 1..];
      assert t[..i][0] == t[0];
    }
  }

  /** The count tells when the table is full. */
  lemma {:induction false} CountFull(t: Table)
    ensures Count(t) <= |t|
    ensures Count(t) == |t| <==> AllPresent(t)
  {
    if t != [] {
      CountFull(t[1..]);
      if AllPresent(t[1..]) && t[0].Some? {
        forall i | 0 <= i < |t|
          ensures t[i].Some?
        {
          if i > 0 {
            assert t[1..][i - 1].Some?;
          }
        }
      } else if t[0].Some? {
        var i :| 0 <= i < |t[1..]| && t[1..][i].None?;
        assert t[i + 1].None?;
      }
    }
  }

  // ----- Agreement with what the sender cut -----

  function PieceChunk(pieces: seq<seq<byte>>, i: nat): Chunk
    requires i < |pieces|
  {
    Chunk(i, PieceOffset(pieces, i), pieces[i])
  }

  function PieceMessage(pieces: seq<seq<byte>>, i: nat): Incoming
    requires i < |pieces|
  {
    Incoming(i, PieceOffset(pieces, i), Some(pieces[i]))
  }

  ghost predicate Matches(t: Table, pieces: seq<seq<byte>>) {
    && |t| <= |pieces|
    && (t != [] ==> t[|t| - 1].Some?)
    && forall i :: 0 <= i < |t| && t[i].Some? ==> t[i].value == PieceChunk(pieces, i)
  }

  /** A body still being filled. `closed` says the sender has cut its last piece. */
  ghost predicate Assembling(b: Body, pieces: seq<seq<byte>>, closed: bool) {
    && b.partial.None? && b.offset == 0
    && Matches(b.chunks, pieces)
    && b.numBytes == b.recvdBytes == |Stored(b.chunks)|
    && b.recvdChunks == Count(b.chunks)
    && (b.complete <==> SeenEnd(b))
    && (SeenEnd(b) ==> closed && b.expectedBytes == |Concat(pieces)| && b.expectedChunks == |pieces|)
    && (!SeenEnd(b) ==> b.expectedChunks == -1)
  }

  lemma FreshAssembling(pieces: seq<seq<byte>>, closed: bool)
    ensures Assembling(Fresh(), pieces, closed)
  {
  }

  /** A complete body with some suffix of the content unread. */
  ghost predicate Draining(b: Body, pieces: seq<seq<byte>>) {
    && IsComplete(b) && SeenEnd(b) && Readable(b)
    && b.expectedBytes == |Concat(pieces)| && b.expectedChunks == |pieces|
    && 0 < b.numBytes <= |Concat(pieces)|
    && Unread(b) == Concat(pieces)[|Concat(pieces)| - b.numBytes..]
  }

  lemma {:induction false} StoredMatches(t: Table, pieces: seq<seq<byte>>)
    requires |t| <= |pieces| && AllPresent(t)
    requires forall i :: 0 <= i < |t| ==> t[i].value == PieceChunk(pieces, i)
    ensures Stored(t) == Concat(pieces[..|t|])
  {
    if t == [] {
      assert pieces[..0] == [];
    } else {
      var n := |t| - 1;
      StoredMatches(t[..n], pieces);
      SplitAt(t, n);
      assert t[n + 1..] == [];
      assert pieces[..n + 1] == pieces[..n] + [pieces[n]];
      ConcatSnoc(pieces[..n], pieces[n]);
    }
  }

  lemma {:induction false} StoredBounded(t: Table, pieces: seq<seq<byte>>)
    requires |t| <= |pieces|
    requires forall i :: 0 <= i < |t| && t[i].Some? ==> t[i].value == PieceChunk(pieces, i)
    ensures |Stored(t)| <= PieceOffset(pieces, |t|) <= |Concat(pieces)|
  {
    if t == [] {
      assert pieces[..0] == [];
    } else {
      var n := |t| - 1;
      StoredBounded(t[..n], pieces);
      SplitAt(t, n);
      assert t[n + 1..] == [];
      PieceInConcat(pieces, n);
    }
  }

  /** Nothing the receiver asserts about its counters can fail. */
  lemma AssemblingSane(b: Body, pieces: seq<seq<byte>>, closed: bool)
    requires Assembling(b, pieces, closed)
    ensures CountersSane(b)
  {
    StoredBounded(b.chunks, pieces);
    CountFull(b.chunks);
  }

  /** Complete means exactly: the End was seen and every piece is here. */
  lemma CompleteIff(b: Body, pieces: seq<seq<byte>>, closed: bool)
    requires Assembling(b, pieces, closed)
    ensures IsComplete(b) <==> SeenEnd(b) && forall i :: 0 <= i < |pieces| ==> Has(b.chunks, i)
    ensures IsComplete(b) ==> Unread(b) == Concat(pieces) && b.numBytes == |Concat(pieces)|
  {
    CountFull(b.chunks);
    if SeenEnd(b) && forall i :: 0 <= i < |pieces| ==> Has(b.chunks, i) {
      if pieces != [] {
        assert Has(b.chunks, |pieces| - 1);
      }
      forall i | 0 <= i < |b.chunks|
        ensures b.chunks[i].Some?
      {
        assert Has(b.chunks, i);
      }
      StoredMatches(b.chunks, pieces);
      assert pieces[..|pieces|] == pieces;
    }
    if IsComplete(b) {
      StoredMatches(b.chunks, pieces);
      assert pieces[..|pieces|] == pieces;
    }
  }

  lemma CompleteDrains(b: Body, pieces: seq<seq<byte>>, closed: bool)
    requires Assembling(b, pieces, closed) && IsComplete(b) && |Concat(pieces)| > 0
    ensures Draining(b, pieces)
  {
    CompleteIff(b, pieces, closed);
    assert Concat(pieces)[0..] == Concat(pieces);
  }

  lemma StorePiece(t: Table, pieces: seq<seq<byte>>, i: nat)
    requires Matches(t, pieces) && i < |pieces| && !Has(t, i)
    ensures var u := Grow(t, i + 1)[i := Some(PieceChunk(pieces, i))];
            && Matches(u, pieces)
            && |Stored(u)| == |Stored(t)| + |pieces[i]| && Count(u) == Count(t) + 1
            && (forall j: nat :: Has(u, j) <==> Has(t, j) || j == i)
  {
    var g := Grow(t, i + 1);
    GrowKeeps(t, i + 1);
    FillSlot(g, i, PieceChunk(pieces, i));
    var u := g[i := Some(PieceChunk(pieces, i))];
    forall j | 0 <= j < |u| && u[j].Some?
      ensures u[j].value == PieceChunk(pieces, j)
    {
      assert j != i ==> j < |t| && u[j] == t[j];
    }
  }

  /** A piece of the sender's is always accepted, in any order and any number of times. */
  lemma AddPiece(b: Body, pieces: seq<seq<byte>>, closed: bool, i: nat)
    requires Assembling(b, pieces, closed) && i < |pieces|
    ensures var r := AddChunk(b, PieceMessage(pieces, i));
            && Assembling(r.body, pieces, closed)
            && (r.ok <==> !IsComplete(b))
            && (forall j: nat :: Has(r.body.chunks, j) <==> Has(b.chunks, j) || j == i)
            && SeenEnd(r.body) == SeenEnd(b) && r.body.released == b.released
  {
    if IsComplete(b) {
      CompleteIff(b, pieces, closed);
    } else if Has(b.chunks, i) {
      assert Grow(b.chunks, i + 1) == b.chunks;
    } else {
      StorePiece(b.chunks, pieces, i);
    }
  }

  /** The End message's totals are accepted at any time. */
  lemma FinishPieces(b: Body, pieces: seq<seq<byte>>)
    requires Assembling(b, pieces, true)
    ensures var r := Finish(b, |Concat(pieces)|, |pieces|);
            && Assembling(r.body, pieces, true) && SeenEnd(r.body)
            && r.body.chunks == b.chunks && r.body.released == b.released
            && (r.ok <==> !SeenEnd(b))
  {
    AssemblingSane(b, pieces, true);
  }

  lemma AssemblingExtends(b: Body, pieces: seq<seq<byte>>, closed: bool, more: seq<seq<byte>>, closed': bool)
    requires Assembling(b, pieces, closed)
    requires closed ==> closed' && more == []
    ensures Assembling(b, pieces + more, closed')
  {
    if closed {
      assert pieces + more == pieces;
    }
    forall i | 0 <= i < |b.chunks| && b.chunks[i].Some?
      ensures b.chunks[i].value == PieceChunk(pieces + more, i)
    {
      PieceOffsetExtends(pieces, more, i);
    }
  }

  /** A late Begin that replaces a placeholder ends with exactly the placeholder's body. */
  lemma SubsumeIsTakeover(p: Body, pieces: seq<seq<byte>>, closed: bool)
    requires Assembling(p, pieces, closed) && !p.released
    ensures Subsume(Fresh(), p) == p
  {
    ReplayRebuilds(Fresh(), p.chunks, 0, pieces);
  }

  ghost predicate Rebuilt(b: Body, t: Table, i: nat) {
    && b.expectedBytes == -1 && b.expectedChunks == -1 && b.recvdBytes >= 0 && !b.released
    && |b.chunks| <= |t| && (i == 0 ==> b.chunks == [])
    && (forall j :: 0 <= j < |b.chunks| ==> b.chunks[j] == if j < i && j < |t| then t[j] else None)
    && (forall j :: 0 <= j < i && j < |t| && t[j].Some? ==> j < |b.chunks|)
  }

  lemma RebuiltStep(b: Body, t: Table, i: nat, pieces: seq<seq<byte>>)
    requires Matches(t, pieces) && i < |t| && Rebuilt(b, t, i)
    ensures Rebuilt(AddChunk(b, FromSlot(t[i])).body, t, i + 1)
  {
    var a := AddChunk(b, FromSlot(t[i])).body;
    assert !IsComplete(b);
    if t[i].Some? {
      assert a.chunks == Grow(b.chunks, i + 1)[i := t[i]];
    } else if b.chunks != [] && b.chunks[0].Some? {
      assert a == b;
    } else {
      assert a.chunks == Grow(b.chunks, 1);
    }
  }

  lemma {:induction false} ReplayRebuilds(b: Body, t: Table, i: nat, pieces: seq<seq<byte>>)
    requires Matches(t, pieces) && i <= |t| && Rebuilt(b, t, i)
    ensures Replay(b, t, i).chunks == t && !Replay(b, t, i).released
    decreases |t| - i
  {
    if i == |t| {
      if t != [] {
        assert t[|t| - 1].Some?;
      }
    } else {
      RebuiltStep(b, t, i, pieces);
      ReplayRebuilds(AddChunk(b, FromSlot(t[i])).body, t, i + 1, pieces);
    }
  }

  lemma SplitRest(all: seq<byte>, rest: seq<byte>, size: nat)
    requires size <= |rest| <= |all| && rest == all[|all| - |rest|..]
    ensures rest[..size] == all[|all| - |rest|..|all| - |rest| + size]
    ensures rest[size..] == all[|all| - |rest| + size..]
  {
  }

  /** Reading `n` bytes of a complete body yields the next `n` of the content. */
  lemma DrainStep(b: Body, pieces: seq<seq<byte>>, n: nat)
    requires Draining(b, pieces) && n > 0
    ensures var all := Concat(pieces);
            var a := RemoveBytes(b, n);
            var size := Min(n, |Unread(b)|);
            && size > 0 && a.numBytes == b.numBytes - size
            && IsComplete(a) && SeenEnd(a) && a.released == b.released
            && (a.numBytes > 0 ==> Draining(a, pieces) && size == n)
            && (a.numBytes == 0 ==> size == b.numBytes)
            && Unread(b)[..size] == all[|all| - b.numBytes..|all| - a.numBytes]
  {
    hide Concat, Stored, Unread, Count;
    RemoveBytesDrops(b, n);
    var all, u := Concat(pieces), Unread(b);
    SplitRest(all, u, Min(n, |u|));
  }

  lemma NextCopied(t: Table, i: nat, all: seq<byte>, buf: seq<byte>, bytes: nat)
    requires i < |t| && |buf| <= |all| && buf == all[..|buf|]
    requires all[|buf|..] == Stored(t[i..]) && bytes <= |Data(t[i])|
    ensures |buf| + bytes <= |all| && buf + Data(t[i])[..bytes] == all[..|buf| + bytes]
    ensures bytes == |Data(t[i])| ==> all[|buf| + bytes..] == Stored(t[i + 1..])
  {
    var rest := all[|buf|..];
    assert t[i..][1..] == t[i + 1..];
    assert rest == Data(t[i]) + Stored(t[i + 1..]);
    assert all == buf + rest;
  }

  // ----- The object -----

  class PendingReceiverIROB {
    var chunks: Table
    var partial: Option<seq<byte>>
    var offset: nat
    var numBytes: int
    var expectedBytes: int
    var expectedChunks: int
    var recvdBytes: int
    var recvdChunks: int
    var complete: bool
    var released: bool

    ghost function Abs(): Body
      reads this
    {
      Body(chunks, partial, offset, numBytes, expectedBytes, expectedChunks,
           recvdBytes, recvdChunks, complete, released)
    }

    constructor ()
      ensures Abs() == Fresh()
    {
      chunks, partial, offset, numBytes := [], None, 0, 0;
      expectedBytes, expectedChunks, recvdBytes, recvdChunks := -1, -1, 0, 0;
      complete, released := false, false;
    }

    method AllChunksComplete() returns (r: bool)
      ensures r == AllPresent(chunks)
    {
      var i := 0;
      while i < |chunks|
        invariant 0 <= i <= |chunks|
        invariant forall j :: 0 <= j < i ==> chunks[j].Some?
      {
        if chunks[i].None? {
          return false;
        }
        i := i + 1;
      }
      return true;
    }

    method IsCompleteNow() returns (r: bool)
      requires CountersSane(Abs())
      ensures r == IsComplete(Abs())
    {
      assert recvdBytes <= expectedBytes || expectedBytes == -1;
      assert expectedChunks == -1 || recvdChunks <= expectedChunks;
      if expectedBytes != recvdBytes || expectedChunks != recvdChunks {
        return false;
      }
      var all := AllChunksComplete();
      return all && complete;
    }

    /** Stores a chunk, whatever arrived before it. */
    method Add(c: Incoming) returns (ok: bool)
      requires CountersSane(Abs())
      requires !IsComplete(Abs()) ==> numBytes == recvdBytes
      modifies this
      ensures Abs() == AddChunk(old(Abs()), c).body
      ensures ok == AddChunk(old(Abs()), c).ok
    {
      var done := IsCompleteNow();
      if done {
        return false;
      }
      assert numBytes == recvdBytes;
      if expectedChunks != -1 && c.seqno >= expectedChunks {
        return false;
      }
      if c.seqno >= |chunks| {
        chunks := chunks + seq(c.seqno + 1 - |chunks|, _ => None);
      }
      if chunks[c.seqno].Some? {
        var existing := chunks[c.seqno].value;
        if c.offset != existing.offset || DataLength(c) != |existing.data| {
          return false;
        }
        return true;
      }
      recvdChunks := recvdChunks + 1;
      chunks := chunks[c.seqno := ToSlot(c)];
      numBytes := numBytes + DataLength(c);
      recvdBytes := recvdBytes + DataLength(c);
      return true;
    }

    method FinishWith(bytes: int, numChunks: int) returns (ok: bool)
      requires CountersSane(Abs())
      requires expectedBytes == -1 <==> expectedChunks == -1
      requires !IsComplete(Abs()) && expectedBytes != -1 ==> expectedBytes == bytes && expectedChunks == numChunks
      modifies this
      ensures Abs() == Finish(old(Abs()), bytes, numChunks).body
      ensures ok == Finish(old(Abs()), bytes, numChunks).ok
    {
      var done := IsCompleteNow();
      if done {
        return false;
      }
      complete := true;
      if expectedBytes == -1 || expectedChunks == -1 {
        assert expectedBytes == -1 && expectedChunks == -1;
        expectedBytes := bytes;
        expectedChunks := numChunks;
        if |chunks| > expectedChunks {
          return false;
        }
      } else {
        assert expectedBytes == bytes && expectedChunks == numChunks;
        return false;
      }
      return true;
    }

    method GetMissingChunks() returns (missing: seq<nat>)
      ensures missing == Missing(Abs())
      ensures var n := if expectedChunks > |chunks| then expectedChunks else |chunks|;
              forall i :: i in missing <==> 0 <= i < n && !Has(chunks, i)
    {
      missing := [];
      var i := 0;
      while i < |chunks|
        invariant 0 <= i <= |chunks| && missing == MissingBelow(chunks, i)
      {
        if chunks[i].None? {
          missing := missing + [i];
        }
        i := i + 1;
      }
      if expectedChunks != -1 && expectedChunks > |chunks| {
        while i < expectedChunks
          invariant |chunks| <= i <= expectedChunks && missing == MissingBelow(chunks, i)
        {
          missing := missing + [i];
          i := i + 1;
        }
      }
      MissingBelowIs(chunks, i);
    }

    /** Copies the next bytes out without removing them. */
    method ReadData(len: nat) returns (buf: seq<byte>)
      requires Readable(Abs()) && len > 0
      ensures buf == Unread(Abs())[..Min(len, |Unread(Abs())|)]
    {
      var left: nat := len;
      buf := [];
      if partial.Some? {
        var bytes := Min(left, |partial.value| - offset);
        assert bytes > 0;
        buf := partial.value[offset..offset + bytes];
        left := left - bytes;
      }
      var rest := CopyChunks(left);
      buf := buf + rest;
    }

    method CopyChunks(len: nat) returns (buf: seq<byte>)
      ensures buf == Stored(chunks)[..Min(len, |Stored(chunks)|)]
    {
      ghost var all := Stored(chunks);
      buf := [];
      var left, i := len, 0;
      assert chunks[0..] == chunks;
      while left > 0 && i < |chunks|
        invariant 0 <= i <= |chunks| && |buf| + left == len && left >= 0
        invariant |buf| <= |all| && buf == all[..|buf|]
        invariant left > 0 ==> all[|buf|..] == Stored(chunks[i..])
      {
        var data := Data(chunks[i]);
        var bytes := Min(left, |data|);
        NextCopied(chunks, i, all, buf, bytes);
        buf := buf + data[..bytes];
        left := left - bytes;
        i := i + 1;
      }
      if left > 0 {
        assert chunks[i..] == [];
      }
    }

    /** Drops the next bytes for good. */
    method Remove(len: nat)
      requires Readable(Abs()) && len > 0
      modifies this
      ensures Abs() == RemoveBytes(old(Abs()), len)
      ensures Unread(Abs()) == old(Unread(Abs()))[Min(len, |old(Unread(Abs()))|)..]
    {
      hide RemoveBytes, Consume, Unread, Stored, Tail;
      RemoveBytesDrops(Abs(), len);
      RemoveParts(Abs(), len);
      var left := DropPartial(len);
      var removed := len - left;
      if partial.None? {
        var more := DropChunks(left);
        removed := removed + more;
      }
      numBytes := numBytes - removed;
    }

    /** The partly read chunk goes first. */
    method DropPartial(len: nat) returns (left: nat)
      requires partial.Some? ==> offset < |partial.value|
      requires len > 0
      modifies `partial, `offset
      ensures var size := |Tail(old(partial), old(offset))|;
              if len < size then left == 0 && partial == old(partial) && offset == old(offset) + len
              else left == len - size && partial.None? && offset == (if old(partial).Some? then 0 else old(offset))
    {
      left := len;
      if partial.Some? {
        var bytes := Min(left, |partial.value| - offset);
        assert bytes > 0;
        if left >= |partial.value| - offset {
          partial := None;
          offset := 0;
        } else {
          offset := offset + bytes;
        }
        left := left - bytes;
      }
    }

    method DropChunks(len: nat) returns (removed: nat)
      requires partial.None? && offset == 0
      modifies `chunks, `partial, `offset
      ensures Rest(chunks, partial, offset) == Consume(old(chunks), len)
      ensures removed == Min(len, |Stored(old(chunks))|)
    {
      ghost var before := chunks;
      var left: nat := len;
      removed := 0;
      while left > 0 && chunks != []
        invariant removed + left == len
        invariant removed + |Tail(partial, offset)| + |Stored(chunks)| == |Stored(before)|
        invariant partial.None? ==> offset == 0 && Consume(before, len) == Consume(chunks, left)
        invariant partial.Some? ==> left == 0 && Consume(before, len) == Rest(chunks, partial, offset)
        decreases |chunks|
      {
        var data := Data(chunks[0]);
        chunks := chunks[1..];
        var bytes := Min(left, |data|);
        removed := removed + bytes;
        if |data| > left {
          offset := bytes;
          partial := Some(data);
        }
        left := left - bytes;
      }
    }

    /** Adds every slot of another table. */
    method AddAll(t: Table)
      requires numBytes == recvdBytes >= 0 && expectedBytes == -1 && expectedChunks == -1
      modifies this
      ensures Abs() == Replay(old(Abs()), t, 0)
    {
      var i := 0;
      while i < |t|
        invariant 0 <= i <= |t|
        invariant Replay(old(Abs()), t, 0) == Replay(Abs(), t, i)
        invariant numBytes == recvdBytes >= 0 && expectedBytes == -1 && expectedChunks == -1
      {
        var ok := Add(FromSlot(t[i]));
        i := i + 1;
      }
    }

    /** Takes over a placeholder's chunks and counters. */
    method TakeOver(other: PendingReceiverIROB)
      requires other != this && Abs() == Fresh()
      modifies this, other`chunks, other`partial
      ensures Abs() == Subsume(Fresh(), old(other.Abs()))
    {
      AddAll(other.chunks);
      other.chunks := [];
      complete := other.complete;
      offset := other.offset;
      numBytes, recvdBytes, recvdChunks := other.numBytes, other.recvdBytes, other.recvdChunks;
      expectedBytes, expectedChunks := other.expectedBytes, other.expectedChunks;
      partial := other.partial;
      other.partial := None;
    }
  }
}
