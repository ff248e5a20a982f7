/** The sender's half of one IROB: the application's chunks, the pieces cut from them for the
    network, one cursor per connection, and the pieces that have to be sent again. */
module SenderIrob {
  import opened Sequences

  datatype AppChunk = AppChunk(seqno: nat, offset: nat, data: seq<byte>)

  /** A piece that was handed to some connection; its bytes stay in the application's chunks. */
  datatype Cut = Cut(seqno: nat, offset: nat, length: nat)

  /** Connection 0 stands for "no particular connection", the only cursor while one sender
      at a time is allowed. `resend` holds seqnos; a cut piece never changes. */
  datatype Sending = Sending(chunks: seq<AppChunk>, numBytes: nat, complete: bool, sent: seq<Cut>,
                             resend: set<nat>, seqnos: map<nat, nat>, offsets: map<nat, nat>, onAll: bool)

  function NewSending(): Sending {
    Sending([], 0, false, [], {}, map[], map[], false)
  }

  function Slot(st: Sending, csock: nat): nat {
    if st.onAll then csock else 0
  }

  function NextSeqno(st: Sending, csock: nat): nat {
    var k := Slot(st, csock);
    if k in st.seqnos then st.seqnos[k] else 0
  }

  function IrobOffset(st: Sending, csock: nat): nat {
    var k := Slot(st, csock);
    if k in st.offsets then st.offsets[k] else 0
  }

  function AddApp(st: Sending, data: seq<byte>): Sending {
    if st.complete then st
    else st.(chunks := st.chunks + [AppChunk(|st.chunks|, st.numBytes, data)], numBytes := st.numBytes + |data|)
  }

  function EndApp(st: Sending): Sending {
    st.(complete := true)
  }

  // ----- Extents -----

  datatype Extent = Extent(offset: nat, length: nat)

  function AppExtents(chunks: seq<AppChunk>): seq<Extent> {
    seq(|chunks|, i requires 0 <= i < |chunks| => Extent(chunks[i].offset, |chunks[i].data|))
  }

  function CutExtents(sent: seq<Cut>): seq<Extent> {
    seq(|sent|, i requires 0 <= i < |sent| => Extent(sent[i].offset, sent[i].length))
  }

  /** The first position whose extent begins after `offset`. */
  function UpperBound(e: seq<Extent>, offset: nat): (i: nat)
    ensures i <= |e|
  {
    if e == [] then 0
    else if e[|e| - 1].offset <= offset then |e|
    else UpperBound(e[..|e| - 1], offset)
  }

  /** The position of the extent that holds `offset`, or the end. */
  function FindChunk(e: seq<Extent>, offset: nat): (i: nat)
    ensures i <= |e|
  {
    var i := UpperBound(e, offset);
    if i > 0 && e[i - 1].offset <= offset < e[i - 1].offset + e[i - 1].length then i - 1 else i
  }

  function Total(e: seq<Extent>): nat {
    if e == [] then 0 else Total(e[..|e| - 1]) + e[|e| - 1].length
  }

  /** Extents that follow one another from offset 0. */
  ghost predicate Contiguous(e: seq<Extent>) {
    forall i :: 0 <= i < |e| ==> e[i].offset == Total(e[..i])
  }

  lemma {:induction false} TotalPrefix(e: seq<Extent>, i: nat)
    requires i <= |e|
    ensures Total(e[..i]) <= Total(e)
    ensures i < |e| ==> Total(e[..i]) + e[i].length == Total(e[..i + 1])
    decreases |e| - i
  {
    if i < |e| {
      assert e[..i + 1][..i] == e[..i];
      TotalPrefix(e, i + 1);
    } else {
      assert e[..i] == e;
    }
  }

  /** Every offset below the total is found in the extent that holds it, and no other offset is. */
  lemma {:induction false} FindChunkFinds(e: seq<Extent>, offset: nat)
    requires Contiguous(e)
    ensures offset < Total(e) ==> FindChunk(e, offset) < |e|
    ensures var i := FindChunk(e, offset);
            if i < |e| then e[i].offset <= offset < e[i].offset + e[i].length else offset >= Total(e)
  {
    UpperBoundSplits(e, offset);
    var i := UpperBound(e, offset);
    if i > 0 {
      TotalPrefix(e, i - 1);
      if i < |e| {
        TotalPrefix(e, i);
      } else {
        assert e[..i] == e;
      }
    }
  }

  lemma {:induction false} UpperBoundSplits(e: seq<Extent>, offset: nat)
    requires Contiguous(e)
    ensures var i := UpperBound(e, offset);
            && (i < |e| ==> e[i].offset > offset)
            && (i > 0 ==> e[i - 1].offset <= offset)
            && (e != [] ==> i > 0)
  {
    hide Total, Contiguous;
    if e != [] {
      FirstAtZero(e);
      if e[|e| - 1].offset > offset {
        ContiguousPrefix(e, |e| - 1);
        UpperBoundSplits(e[..|e| - 1], offset);
      }
    }
  }

  lemma FirstAtZero(e: seq<Extent>)
    requires Contiguous(e) && e != []
    ensures e[0].offset == 0
  {
    assert e[..0] == [];
  }

  lemma ContiguousPrefix(e: seq<Extent>, n: nat)
    requires Contiguous(e) && n <= |e|
    ensures Contiguous(e[..n])
  {
    hide Total;
    forall i | 0 <= i < n
      ensures e[..n][i].offset == Total(e[..n][..i])
    {
      assert e[..n][..i] == e[..i];
    }
  }

  lemma {:induction false} TotalMonotone(e: seq<Extent>, i: nat, j: nat)
    requires i < j <= |e|
    ensures Total(e[..i]) + e[i].length <= Total(e[..j])
    decreases j
  {
    TotalPrefix(e, i);
    if i + 1 < j {
      TotalMonotone(e, i, j - 1);
      TotalPrefix(e, j - 1);
    }
  }

  /** A boundary between nonempty extents is found at its own extent. */
  lemma BoundaryFound(e: seq<Extent>, n: nat)
    requires Contiguous(e) && n <= |e| && forall i :: 0 <= i < |e| ==> e[i].length > 0
    ensures FindChunk(e, Total(e[..n])) == n
  {
    var i := FindChunk(e, Total(e[..n]));
    FindChunkFinds(e, Total(e[..n]));
    hide FindChunk, Total;
    assert e[..|e|] == e;
    if i < n {
      TotalMonotone(e, i, n);
    } else if n < i {
      TotalMonotone(e, n, i);
    }
  }

  /** One more extent at the end. */
  lemma ContiguousSnoc(e: seq<Extent>, length: nat)
    requires Contiguous(e)
    ensures var f := e + [Extent(Total(e), length)];
            && Contiguous(f) && Total(f) == Total(e) + length
            && forall i :: 0 <= i <= |e| ==> f[..i] == e[..i]
  {
    var f := e + [Extent(Total(e), length)];
    assert forall i :: 0 <= i <= |e| ==> f[..i] == e[..i];
    assert f[..|e|] == e == e[..|e|];
  }

  // ----- Bytes and pieces -----

  function AppData(chunks: seq<AppChunk>): seq<seq<byte>> {
    seq(|chunks|, i requires 0 <= i < |chunks| => chunks[i].data)
  }

  /** What the application has written. */
  function Bytes(st: Sending): seq<byte> {
    Concat(AppData(st.chunks))
  }

  function SentBytes(st: Sending): nat {
    Total(CutExtents(st.sent))
  }

  predicate AllBytesChunked(st: Sending) {
    SentBytes(st) == Total(AppExtents(st.chunks))
  }

  function Slice(bytes: seq<byte>, offset: nat, length: nat): seq<byte> {
    if offset + length <= |bytes| then bytes[offset..offset + length] else []
  }

  function PiecesOf(bytes: seq<byte>, sent: seq<Cut>): (r: seq<seq<byte>>)
    ensures |r| == |sent|
  {
    if sent == [] then []
    else
      var c := sent[|sent| - 1];
      PiecesOf(bytes, sent[..|sent| - 1]) + [Slice(bytes, c.offset, c.length)]
  }

  /** The bytes of each piece cut so far. */
  function Pieces(st: Sending): seq<seq<byte>> {
    PiecesOf(Bytes(st), st.sent)
  }

  lemma {:induction false} PieceAt(bytes: seq<byte>, sent: seq<Cut>, i: nat)
    requires i < |sent|
    ensures PiecesOf(bytes, sent)[i] == Slice(bytes, sent[i].offset, sent[i].length)
  {
    if i < |sent| - 1 {
      PieceAt(bytes, sent[..|sent| - 1], i);
    }
  }

  /** More bytes at the end leave the pieces as they were. */
  lemma {:induction false} PiecesKeep(bytes: seq<byte>, more: seq<byte>, sent: seq<Cut>)
    requires forall i :: 0 <= i < |sent| ==> sent[i].offset + sent[i].length <= |bytes|
    ensures PiecesOf(bytes + more, sent) == PiecesOf(bytes, sent)
  {
    if sent != [] {
      PiecesKeep(bytes, more, sent[..|sent| - 1]);
      var c := sent[|sent| - 1];
      assert (bytes + more)[c.offset..c.offset + c.length] == bytes[c.offset..c.offset + c.length];
    }
  }

  datatype Gathered = Gathered(data: seq<byte>, length: nat)

  /** Up to `len` bytes at `offset`; where a piece was already cut, exactly that piece. */
  function GetBytes(st: Sending, offset: nat, len: nat): Gathered {
    if FindChunk(AppExtents(st.chunks), offset) == |st.chunks| then Gathered([], 0)
    else
      var j := FindChunk(CutExtents(st.sent), offset);
      var want := if j < |st.sent| then st.sent[j].length else len;
      var n := if offset + want <= |Bytes(st)| then want
               else if offset <= |Bytes(st)| then |Bytes(st)| - offset else 0;
      Gathered(Slice(Bytes(st), offset, n), n)
  }

  datatype Ready = Ready(st: Sending, data: seq<byte>, length: nat, seqno: nat, offset: nat)

  ghost predicate LeastOf(s: set<nat>, k: nat) {
    k in s && forall j :: j in s ==> k <= j
  }

  lemma {:induction false} LeastExists(s: set<nat>)
    requires s != {}
    ensures exists k :: LeastOf(s, k)
    decreases |s|
  {
    SomeMember(s);
    var a: nat :| a in s;
    var rest := s - {a};
    assert forall j :: j in s ==> j == a || j in rest;
    if rest == {} {
      assert LeastOf(s, a);
    } else {
      LeastExists(rest);
      var k :| LeastOf(rest, k);
      assert LeastOf(s, if a <= k then a else k);
    }
  }

  ghost function Front(s: set<nat>): (k: nat)
    requires s != {}
    ensures LeastOf(s, k)
  {
    LeastExists(s);
    var k :| LeastOf(s, k);
    k
  }

  /** Records that `len` bytes were taken on `csock`; a piece no sender had cut before is added. */
  function AddSentChunk(st: Sending, csock: nat, len: nat): Sending {
    var k := Slot(st, csock);
    var seqno, offset := NextSeqno(st, csock), IrobOffset(st, csock);
    var t := st.(seqnos := st.seqnos[k := seqno + 1], offsets := st.offsets[k := offset + len]);
    if seqno == |st.sent| then t.(sent := st.sent + [Cut(seqno, offset, len)]) else t
  }

  /** A piece to send again if there is one, else the next piece for this connection. */
  ghost function GetReady(st: Sending, csock: nat, requested: nat): Ready
  {
    if st.resend != {} then
      var front := Front(st.resend);
      var c := if front < |st.sent| then st.sent[front] else Cut(0, 0, 0);
      var g := GetBytes(st, c.offset, c.length);
      Ready(st.(resend := st.resend - {front}), g.data, g.length, c.seqno, c.offset)
    else
      var offset := IrobOffset(st, csock);
      var want := if requested > 0 then requested
                  else if offset <= st.numBytes then st.numBytes - offset else 0;
      var g := GetBytes(st, offset, want);
      Ready(if g.length == 0 then st else AddSentChunk(st, csock, g.length),
            g.data, g.length, NextSeqno(st, csock), offset)
  }

  function MarkNotReceived(st: Sending, seqno: nat): Sending {
    if seqno > |st.sent| then st else st.(resend := st.resend + {seqno})
  }

  function Range(lo: nat, hi: nat): (r: set<nat>)
    ensures forall i: nat :: i in r <==> lo <= i < hi
    decreases hi - lo
  {
    if lo >= hi then {} else {lo} + Range(lo + 1, hi)
  }

  function MarkDropPoint(st: Sending, nextChunk: nat): Sending {
    st.(resend := st.resend + Range(nextChunk, |st.sent|))
  }

  // ----- The invariant -----

  ghost predicate AppOk(st: Sending) {
    && (forall i :: 0 <= i < |st.chunks| ==> st.chunks[i].seqno == i)
    && Contiguous(AppExtents(st.chunks))
    && st.numBytes == Total(AppExtents(st.chunks)) == |Bytes(st)|
  }

  ghost predicate CutsOk(st: Sending) {
    && (forall i :: 0 <= i < |st.sent| ==> st.sent[i].seqno == i && st.sent[i].length > 0)
    && Contiguous(CutExtents(st.sent))
    && SentBytes(st) <= st.numBytes
  }

  /** The cursor stored under `k` is on a boundary between pieces. */
  ghost predicate CursorOk(st: Sending, k: nat) {
    var n := if k in st.seqnos then st.seqnos[k] else 0;
    var o := if k in st.offsets then st.offsets[k] else 0;
    n <= |st.sent| && o == Total(CutExtents(st.sent)[..n])
  }

  /** The pieces partition a prefix of the application's bytes, and every connection's cursor
      - present or future, shared or its own - is on a boundary of that partition. */
  ghost predicate Valid(st: Sending) {
    && AppOk(st) && CutsOk(st)
    && (forall k: nat :: CursorOk(st, k))
    && (forall i :: i in st.resend ==> i < |st.sent|)
  }

  lemma NewSendingValid()
    ensures Valid(NewSending())
  {
    assert AppData([]) == [] && AppExtents([]) == [] && CutExtents([]) == [];
    assert forall k: nat :: CursorOk(NewSending(), k);
  }

  lemma AddAppKeeps(st: Sending, data: seq<byte>)
    requires Valid(st)
    ensures var t := AddApp(st, data);
            && Valid(t) && Bytes(t) == (if st.complete then Bytes(st) else Bytes(st) + data)
            && t.sent == st.sent && Pieces(t) == Pieces(st)
  {
    if !st.complete {
      var t := AddApp(st, data);
      AddAppBytes(st, data);
      forall k: nat
        ensures CursorOk(t, k)
      {
        assert CursorOk(st, k);
      }
      forall i | 0 <= i < |st.sent|
        ensures st.sent[i].offset + st.sent[i].length <= st.numBytes
      {
        CutInside(st, i);
      }
      PiecesKeep(Bytes(st), data, st.sent);
    }
  }

  lemma AddAppBytes(st: Sending, data: seq<byte>)
    requires AppOk(st) && !st.complete
    ensures var t := AddApp(st, data);
            AppOk(t) && Bytes(t) == Bytes(st) + data
  {
    var t := AddApp(st, data);
    ContiguousSnoc(AppExtents(st.chunks), |data|);
    assert AppExtents(t.chunks) == AppExtents(st.chunks) + [Extent(st.numBytes, |data|)];
    assert AppData(t.chunks) == AppData(st.chunks) + [data];
    ConcatSnoc(AppData(st.chunks), data);
  }

  lemma EndAppKeeps(st: Sending)
    requires Valid(st)
    ensures var t := EndApp(st);
            Valid(t) && Bytes(t) == Bytes(st) && Pieces(t) == Pieces(st)
  {
    hide Total;
    forall k: nat
      ensures CursorOk(EndApp(st), k)
    {
      assert CursorOk(st, k);
    }
  }

  lemma CutInside(st: Sending, i: nat)
    requires CutsOk(st) && i < |st.sent|
    ensures st.sent[i].offset == Total(CutExtents(st.sent)[..i])
    ensures st.sent[i].offset + st.sent[i].length == Total(CutExtents(st.sent)[..i + 1]) <= SentBytes(st) <= st.numBytes
  {
    TotalPrefix(CutExtents(st.sent), i);
    TotalPrefix(CutExtents(st.sent), i + 1);
  }

  /** Where a piece was cut, the same piece is found again, whatever length is asked for. */
  lemma GetBytesAgain(st: Sending, i: nat, len: nat)
    requires Valid(st) && i < |st.sent|
    ensures var g := GetBytes(st, st.sent[i].offset, len);
            g.length == st.sent[i].length == |g.data| && g.data == Pieces(st)[i]
  {
    var e := CutExtents(st.sent);
    CutInside(st, i);
    BoundaryFound(e, i);
    FindChunkFinds(AppExtents(st.chunks), st.sent[i].offset);
    PieceAt(Bytes(st), st.sent, i);
    hide FindChunk, Total, PiecesOf, AppExtents;
  }

  /** Past the last piece, new bytes are gathered, as many as asked for and available. */
  lemma GetBytesNew(st: Sending, len: nat)
    requires Valid(st)
    ensures var g, at := GetBytes(st, SentBytes(st), len), SentBytes(st);
            && g.length == Min(len, st.numBytes - at) == |g.data|
            && g.data == Bytes(st)[at..at + g.length]
  {
    var e := CutExtents(st.sent);
    assert e[..|e|] == e;
    BoundaryFound(e, |e|);
    FindChunkFinds(AppExtents(st.chunks), SentBytes(st));
    hide FindChunk, Total, PiecesOf, AppExtents;
  }

  /** A connection's cursor names either an existing piece or the next one to cut. */
  lemma CursorPoints(st: Sending, csock: nat)
    requires Valid(st)
    ensures var n, o := NextSeqno(st, csock), IrobOffset(st, csock);
            && n <= |st.sent| && o <= st.numBytes
            && (if n < |st.sent| then o == st.sent[n].offset else o == SentBytes(st))
  {
    var e := CutExtents(st.sent);
    var n := NextSeqno(st, csock);
    assert CursorOk(st, Slot(st, csock));
    TotalPrefix(e, n);
    if n < |st.sent| {
      CutInside(st, n);
    } else {
      assert e[..n] == e;
    }
  }

  lemma CursorBoundary(st: Sending, csock: nat)
    requires Valid(st)
    ensures var n := NextSeqno(st, csock);
            n <= |st.sent| && IrobOffset(st, csock) == Total(CutExtents(st.sent)[..n])
  {
    hide Total;
    assert CursorOk(st, Slot(st, csock));
  }

  /** Moving a cursor that names piece `n` past it keeps every cursor on a boundary. */
  lemma CursorsMove(st: Sending, t: Sending, csock: nat, len: nat)
    requires forall k: nat :: CursorOk(st, k)
    requires t.seqnos == st.seqnos[Slot(st, csock) := NextSeqno(st, csock) + 1]
    requires t.offsets == st.offsets[Slot(st, csock) := IrobOffset(st, csock) + len]
    requires var e, f, n := CutExtents(st.sent), CutExtents(t.sent), NextSeqno(st, csock);
             && n < |f| && |e| <= |f| && (forall i :: 0 <= i <= |e| ==> f[..i] == e[..i]) && f[n].length == len
    ensures forall k: nat :: CursorOk(t, k)
  {
    var n := NextSeqno(st, csock);
    assert CursorOk(st, Slot(st, csock));
    TotalPrefix(CutExtents(t.sent), n);
    hide Total;
    forall k: nat
      ensures CursorOk(t, k)
    {
      assert CursorOk(st, k);
    }
  }

  /** Cutting one more piece. */
  lemma CutNext(st: Sending, csock: nat, len: nat)
    requires Valid(st) && NextSeqno(st, csock) == |st.sent|
    requires 0 < len <= st.numBytes - SentBytes(st)
    ensures var t := AddSentChunk(st, csock, len);
            && Valid(t) && Pieces(t) == Pieces(st) + [Bytes(st)[SentBytes(st)..SentBytes(st) + len]]
            && Bytes(t) == Bytes(st)
  {
    hide Total, CursorOk;
    var t := AddSentChunk(st, csock, len);
    CursorPoints(st, csock);
    CutsSnoc(st, len);
    CursorsMove(st, t, csock, len);
    var c := Cut(|st.sent|, SentBytes(st), len);
    assert t.sent == st.sent + [c] && t.sent[..|t.sent| - 1] == st.sent;
    assert Pieces(t) == Pieces(st) + [Slice(Bytes(st), c.offset, c.length)];
  }

  lemma CutsSnoc(st: Sending, len: nat)
    requires CutsOk(st) && 0 < len <= st.numBytes - SentBytes(st)
    ensures var e := CutExtents(st.sent);
            var t := st.(sent := st.sent + [Cut(|st.sent|, SentBytes(st), len)]);
            var f := CutExtents(t.sent);
            && CutsOk(t) && |f| == |e| + 1 && f[|e|].length == len
            && forall i :: 0 <= i <= |e| ==> f[..i] == e[..i]
  {
    hide Total;
    ContiguousSnoc(CutExtents(st.sent), len);
    assert CutExtents(st.sent + [Cut(|st.sent|, SentBytes(st), len)]) == CutExtents(st.sent) + [Extent(SentBytes(st), len)];
  }

  /** Taking an existing piece only moves the cursor. */
  lemma RetraceCut(st: Sending, csock: nat)
    requires Valid(st) && NextSeqno(st, csock) < |st.sent|
    ensures var n := NextSeqno(st, csock);
            var t := AddSentChunk(st, csock, st.sent[n].length);
            && Valid(t) && t == st.(seqnos := t.seqnos, offsets := t.offsets)
  {
    var n := NextSeqno(st, csock);
    var t := AddSentChunk(st, csock, st.sent[n].length);
    CursorPoints(st, csock);
    CursorsMove(st, t, csock, st.sent[n].length);
    hide Total, CursorOk;
  }

  /** What was handed out, if anything, is a whole piece of a partition that only grows. */
  ghost predicate HandsOutPiece(st: Sending, r: Ready) {
    && Valid(r.st) && Bytes(r.st) == Bytes(st) && r.st.complete == st.complete && r.st.onAll == st.onAll
    && Pieces(st) <= Pieces(r.st) && |r.st.sent| <= |st.sent| + 1
    && r.length == |r.data|
    && (r.length > 0 ==> r.seqno < |r.st.sent| && r.data == Pieces(r.st)[r.seqno]
                         && r.offset == r.st.sent[r.seqno].offset)
  }

  /** An outstanding resend goes first, lowest seqno first, one whole piece at a time. */
  lemma ReadyResend(st: Sending, csock: nat, requested: nat)
    requires Valid(st) && st.resend != {}
    ensures var r := GetReady(st, csock, requested);
            && HandsOutPiece(st, r) && r.length > 0
            && r.seqno == Front(st.resend) && r.st == st.(resend := st.resend - {r.seqno})
  {
    hide Total, CursorOk, PiecesOf, GetBytes;
    var front := Front(st.resend);
    GetBytesAgain(st, front, st.sent[front].length);
    ResendKeeps(st, st.resend - {front});
  }

  /** A connection behind the others gets the very piece they got, whatever it asks for. */
  lemma ReadyBehind(st: Sending, csock: nat, requested: nat)
    requires Valid(st) && st.resend == {} && NextSeqno(st, csock) < |st.sent|
    ensures var r := GetReady(st, csock, requested);
            && HandsOutPiece(st, r) && r.length > 0 && r.st.sent == st.sent && r.st.resend == {}
            && r.seqno == NextSeqno(st, csock)
  {
    hide Total, CursorOk, PiecesOf, GetBytes, AddSentChunk;
    var n := NextSeqno(st, csock);
    CursorPoints(st, csock);
    CutInside(st, n);
    var offset := IrobOffset(st, csock);
    var want := if requested > 0 then requested else if offset <= st.numBytes then st.numBytes - offset else 0;
    GetBytesAgain(st, n, want);
    RetraceCut(st, csock);
  }

  /** A connection at the front gets a new piece of the asked size, or less at the end. */
  lemma ReadyNew(st: Sending, csock: nat, requested: nat)
    requires Valid(st) && st.resend == {} && NextSeqno(st, csock) == |st.sent|
    ensures var r := GetReady(st, csock, requested);
            && HandsOutPiece(st, r) && r.seqno == |st.sent| && r.st.resend == {}
            && r.length == (if requested > 0 then Min(requested, st.numBytes - SentBytes(st)) else st.numBytes - SentBytes(st))
            && |r.st.sent| == |st.sent| + (if r.length > 0 then 1 else 0)
  {
    hide Valid, Bytes, Pieces, SentBytes, GetBytes, AddSentChunk;
    CursorPoints(st, csock);
    Sizes(st);
    var left := st.numBytes - SentBytes(st);
    var want := if requested > 0 then requested else left;
    GetBytesNew(st, want);
    var len := Min(want, left);
    if len > 0 {
      CutNext(st, csock, len);
      NewCut(st, csock, len);
      LastPiece(Pieces(st), Bytes(st)[SentBytes(st)..SentBytes(st) + len]);
    }
  }

  lemma Sizes(st: Sending)
    requires Valid(st)
    ensures SentBytes(st) <= st.numBytes == |Bytes(st)| && |Pieces(st)| == |st.sent|
  {
    hide Total;
  }

  lemma LastPiece(pieces: seq<seq<byte>>, piece: seq<byte>)
    ensures (pieces + [piece])[|pieces|] == piece
  {
  }

  lemma ResendKeeps(st: Sending, resend: set<nat>)
    requires Valid(st) && forall i :: i in resend ==> i < |st.sent|
    ensures Valid(st.(resend := resend)) && Pieces(st.(resend := resend)) == Pieces(st)
  {
    hide Total;
    forall k: nat
      ensures CursorOk(st.(resend := resend), k)
    {
      assert CursorOk(st, k);
    }
  }

  lemma SentSnoc(sent: seq<Cut>, c: Cut)
    ensures Total(CutExtents(sent + [c])) == Total(CutExtents(sent)) + c.length
  {
    var e := CutExtents(sent + [c]);
    assert e[..|e| - 1] == CutExtents(sent);
  }

  lemma NewCut(st: Sending, csock: nat, len: nat)
    requires NextSeqno(st, csock) == |st.sent|
    ensures var t := AddSentChunk(st, csock, len);
            && t.sent == st.sent + [Cut(|st.sent|, IrobOffset(st, csock), len)] && t.resend == st.resend
            && t.complete == st.complete && t.onAll == st.onAll
  {
  }

  /** Turning on redundant sending in the middle moves no cursor off its boundary. */
  lemma SendOnAllKeeps(st: Sending)
    requires Valid(st)
    ensures Valid(st.(onAll := true))
  {
    hide Total;
    forall k: nat
      ensures CursorOk(st.(onAll := true), k)
    {
      assert CursorOk(st, k);
    }
  }

  lemma ResendBounded(st: Sending, seqno: nat, nextChunk: nat)
    requires Valid(st) && seqno != |st.sent|
    ensures forall i :: i in MarkNotReceived(st, seqno).resend ==> i < |st.sent|
    ensures forall i :: i in MarkDropPoint(st, nextChunk).resend ==> i < |st.sent|
  {
  }

  lemma MarksKeep(st: Sending, seqno: nat, nextChunk: nat)
    requires Valid(st) && seqno != |st.sent|
    ensures Valid(MarkNotReceived(st, seqno)) && Valid(MarkDropPoint(st, nextChunk))
    ensures Pieces(MarkNotReceived(st, seqno)) == Pieces(st) == Pieces(MarkDropPoint(st, nextChunk))
  {
    hide Valid;
    var t, u := MarkNotReceived(st, seqno), MarkDropPoint(st, nextChunk);
    ResendBounded(st, seqno, nextChunk);
    ResendKeeps(st, t.resend);
    ResendKeeps(st, u.resend);
  }

  /** Marking a piece: any seqno up to and including the number of pieces is marked, and no other. That
      is one too many, for which there is no piece: the invariant breaks exactly then. */
  lemma MarkedIff(st: Sending, seqno: nat)
    requires Valid(st)
    ensures var t := MarkNotReceived(st, seqno);
            && t == st.(resend := t.resend)
            && (forall i :: i in t.resend <==> i in st.resend || (i == seqno && seqno <= |st.sent|))
            && (Valid(t) <==> seqno != |st.sent|)
  {
    if seqno != |st.sent| {
      MarksKeep(st, seqno, 0);
    }
  }

  /** The pieces are a prefix of the bytes, and all of them once everything is cut. */
  lemma PiecesPartition(st: Sending)
    requires Valid(st)
    ensures Concat(Pieces(st)) == Bytes(st)[..SentBytes(st)]
    ensures AllBytesChunked(st) <==> Concat(Pieces(st)) == Bytes(st)
    ensures |Pieces(st)| == |st.sent|
    ensures forall i :: 0 <= i < |st.sent| ==> st.sent[i].offset == PieceOffset(Pieces(st), i)
  {
    var e := CutExtents(st.sent);
    assert Pieces(st)[..|st.sent|] == Pieces(st) && e[..|e|] == e;
    PrefixOfPieces(st, |st.sent|);
    forall i | 0 <= i < |st.sent|
      ensures st.sent[i].offset == PieceOffset(Pieces(st), i)
    {
      PrefixOfPieces(st, i);
      CutInside(st, i);
    }
    assert Bytes(st)[..|Bytes(st)|] == Bytes(st);
  }

  lemma {:induction false} PrefixOfPieces(st: Sending, i: nat)
    requires Valid(st) && i <= |st.sent|
    ensures var e := CutExtents(st.sent);
            && |Pieces(st)| == |st.sent| && Total(e[..i]) <= st.numBytes
            && Concat(Pieces(st)[..i]) == Bytes(st)[..Total(e[..i])]
  {
    hide Total, PiecesOf, CursorOk;
    var e := CutExtents(st.sent);
    TotalPrefix(e, i);
    if i == 0 {
      assert e[..0] == [] && Pieces(st)[..0] == [];
      assert Concat([]) == [] == Bytes(st)[..0];
      NothingTotal();
    } else {
      PrefixOfPieces(st, i - 1);
      CutInside(st, i - 1);
      PieceAt(Bytes(st), st.sent, i - 1);
      NextPrefix(Bytes(st), Pieces(st), i - 1, Total(e[..i - 1]), Total(e[..i]));
    }
  }

  lemma NothingTotal()
    ensures Total([]) == 0
  {
  }

  lemma NextPrefix(bytes: seq<byte>, pieces: seq<seq<byte>>, i: nat, a: nat, b: nat)
    requires i < |pieces| && a <= b <= |bytes|
    requires Concat(pieces[..i]) == bytes[..a] && pieces[i] == bytes[a..b]
    ensures Concat(pieces[..i + 1]) == bytes[..b]
  {
    assert pieces[..i + 1] == pieces[..i] + [pieces[i]];
    ConcatSnoc(pieces[..i], pieces[i]);
    assert bytes[..b] == bytes[..a] + bytes[a..b];
  }

  // ----- The object -----

  /** Application chunk `i` is where its offset says. */
  lemma ChunkInBytes(st: Sending, i: nat)
    requires AppOk(st) && i < |st.chunks|
    ensures var c := st.chunks[i];
            && c.offset + |c.data| <= |Bytes(st)| && Bytes(st)[c.offset..c.offset + |c.data|] == c.data
            && (if i + 1 < |st.chunks| then st.chunks[i + 1].offset == c.offset + |c.data|
                else c.offset + |c.data| == |Bytes(st)|)
  {
    var d, e := AppData(st.chunks), AppExtents(st.chunks);
    PieceInConcat(d, i);
    DataOffset(st.chunks, i);
    DataOffset(st.chunks, i + 1);
    TotalPrefix(e, i);
    if i + 1 == |st.chunks| {
      assert e[..i + 1] == e;
    }
  }

  lemma {:induction false} DataOffset(chunks: seq<AppChunk>, i: nat)
    requires i <= |chunks|
    ensures PieceOffset(AppData(chunks), i) == Total(AppExtents(chunks)[..i])
  {
    var d, e := AppData(chunks), AppExtents(chunks);
    if i > 0 {
      DataOffset(chunks, i - 1);
      PieceInConcat(d, i - 1);
      TotalPrefix(e, i - 1);
    }
  }

  /** The front of a set that is kept in seqno order. */
  method Lowest(s: set<nat>) returns (k: nat)
    requires s != {}
    ensures k == Front(s)
  {
    SomeMember(s);
    k :| k in s;
    var todo := s - {k};
    while todo != {}
      invariant todo <= s && k in s
      invariant forall j :: j in s && j !in todo ==> k <= j
    {
      SomeMember(todo);
      var j: nat :| j in todo;
      todo := todo - {j};
      if j < k {
        k := j;
      }
    }
    assert LeastOf(s, k);
  }

  class PendingSenderIROB {
    var chunks: seq<AppChunk>
    var numBytes: nat
    var complete: bool
    var sent: seq<Cut>
    var resend: set<nat>
    var seqnos: map<nat, nat>
    var offsets: map<nat, nat>
    var onAll: bool

    ghost function Abs(): Sending
      reads this
    {
      Sending(chunks, numBytes, complete, sent, resend, seqnos, offsets, onAll)
    }

    function CursorKey(csock: nat): (k: nat)
      reads this
      ensures k == Slot(Abs(), csock)
    {
      if !onAll then 0 else csock
    }

    function GetNextSeqno(csock: nat): (seqno: nat)
      reads this
      ensures seqno == NextSeqno(Abs(), csock)
    {
      var k := CursorKey(csock);
      if k in seqnos then seqnos[k] else 0
    }

    function GetIrobOffset(csock: nat): (offset: nat)
      reads this
      ensures offset == IrobOffset(Abs(), csock)
    {
      var k := CursorKey(csock);
      if k in offsets then offsets[k] else 0
    }

    constructor ()
      ensures Abs() == NewSending() && Valid(Abs())
    {
      chunks, numBytes, complete, sent := [], 0, false, [];
      resend, seqnos, offsets, onAll := {}, map[], map[], false;
      new;
      NewSendingValid();
    }

    method AddChunk(data: seq<byte>) returns (ok: bool)
      requires Valid(Abs())
      modifies this
      ensures Valid(Abs()) && Abs() == AddApp(old(Abs()), data)
      ensures ok == !old(complete)
      ensures Bytes(Abs()) == if ok then old(Bytes(Abs())) + data else old(Bytes(Abs()))
    {
      AddAppKeeps(Abs(), data);
      hide Valid, Bytes;
      if complete {
        return false;
      }
      chunks := chunks + [AppChunk(|chunks|, numBytes, data)];
      numBytes := numBytes + |data|;
      return true;
    }

    /** Gathers bytes without side effects; a piece already cut is gathered exactly again. */
    method GetBytesInternal(offset: nat, len: nat) returns (data: seq<byte>)
      requires Valid(Abs())
      requires exists n :: 0 <= n <= |sent| && offset == Total(CutExtents(sent)[..n])
      ensures data == GetBytes(Abs(), offset, len).data && |data| == GetBytes(Abs(), offset, len).length
    {
      hide FindChunk, Total, CursorOk, AppData, Concat;
      data := [];
      var i := FindChunk(AppExtents(chunks), offset);
      FindChunkFinds(AppExtents(chunks), offset);
      if i == |chunks| {
        return;
      }
      var want := len;
      var j := FindChunk(CutExtents(sent), offset);
      ghost var n :| 0 <= n <= |sent| && offset == Total(CutExtents(sent)[..n]);
      BoundaryFound(CutExtents(sent), n);
      if j < |sent| {
        CutInside(Abs(), j);
        assert offset == sent[j].offset;
        want := sent[j].length;
      }
      data := Gather(i, offset, want);
    }

    method Gather(first: nat, offset: nat, want: nat) returns (data: seq<byte>)
      requires Valid(Abs()) && first < |chunks|
      requires chunks[first].offset <= offset < chunks[first].offset + |chunks[first].data|
      ensures var size := if offset + want <= |Bytes(Abs())| then want else |Bytes(Abs())| - offset;
              offset <= offset + size <= |Bytes(Abs())| && data == Bytes(Abs())[offset..offset + size]
    {
      hide CutsOk, CursorOk, Bytes, AppExtents, Total;
      ghost var all := Bytes(Abs());
      data := [];
      var i := first;
      var from: nat := offset - chunks[i].offset;
      ChunkInBytes(Abs(), i);
      while |data| < want && i < |chunks|
        invariant first <= i <= |chunks| && |data| <= want
        invariant offset + |data| <= |all| && data == all[offset..offset + |data|]
        invariant |data| < want && i < |chunks| ==> from <= |chunks[i].data| && offset + |data| == chunks[i].offset + from
        invariant |data| < want && i == |chunks| ==> offset + |data| == |all|
      {
        var c := chunks[i].data;
        ChunkInBytes(Abs(), i);
        var take := Min(|c| - from, want - |data|);
        GatherMore(all, data, offset, c, chunks[i].offset, from, take);
        data := data + c[from..from + take];
        from := 0;
        i := i + 1;
      }
    }

    /** The next piece for this connection, with its seqno and offset. */
    method GetReadyBytes(csock: nat, requested: nat) returns (data: seq<byte>, seqno: nat, offset: nat)
      requires Valid(Abs())
      modifies this
      ensures var r := GetReady(old(Abs()), csock, requested);
              && Abs() == r.st && data == r.data && seqno == r.seqno && offset == r.offset
              && HandsOutPiece(old(Abs()), r) && (old(resend) != {} ==> data != [])
    {
      hide Valid, HandsOutPiece, GetBytes, AddSentChunk;
      GetReadyHandsOutPieces(Abs(), csock, requested);
      if resend != {} {
        data, seqno, offset := TakeResend();
        ReadyHasData(old(Abs()), csock, requested);
      } else {
        data, seqno, offset := TakeNext(csock, requested);
      }
    }

    method TakeNext(csock: nat, requested: nat) returns (data: seq<byte>, seqno: nat, offset: nat)
      requires Valid(Abs()) && resend == {}
      modifies this
      ensures var r := GetReady(old(Abs()), csock, requested);
              Abs() == r.st && data == r.data && seqno == r.seqno && offset == r.offset
    {
      hide Valid, GetBytes, AddSentChunk;
      ghost var st := Abs();
      ReadyHasData(st, csock, requested);
      CursorPoints(st, csock);
      seqno := GetNextSeqno(csock);
      offset := GetIrobOffset(csock);
      var want := if requested > 0 then requested else numBytes - offset;
      CursorBoundary(st, csock);
      data := GetBytesInternal(offset, want);
      if data == [] {
        return;
      }
      RecordSent(csock, |data|);
    }

    method TakeResend() returns (data: seq<byte>, seqno: nat, offset: nat)
      requires Valid(Abs()) && resend != {}
      modifies `resend
      ensures var r := GetReady(old(Abs()), 0, 0);
              Abs() == r.st && data == r.data && seqno == r.seqno && offset == r.offset && data != []
    {
      var front := Lowest(resend);
      var c := sent[front];
      CutInside(Abs(), front);
      data := GetBytesInternal(c.offset, c.length);
      GetBytesAgain(Abs(), front, c.length);
      assert |data| == c.length;
      hide Valid, GetBytes;
      resend := resend - {front};
      seqno, offset := c.seqno, c.offset;
    }

    method RecordSent(csock: nat, len: nat)
      requires NextSeqno(Abs(), csock) <= |sent|
      requires NextSeqno(Abs(), csock) < |sent| ==>
                 var c := sent[NextSeqno(Abs(), csock)];
                 c.offset == IrobOffset(Abs(), csock) && c.length == len
      modifies this
      ensures Abs() == AddSentChunk(old(Abs()), csock, len)
    {
      var k := CursorKey(csock);
      var seqno := GetNextSeqno(csock);
      var offset := GetIrobOffset(csock);
      seqnos := seqnos[k := seqno + 1];
      offsets := offsets[k := offset + len];
      assert seqno <= |sent|;
      if seqno == |sent| {
        sent := sent + [Cut(seqno, offset, len)];
      } else {
        assert sent[seqno].offset == offset;
        assert sent[seqno].length == len;
      }
    }

    method MarkLost(seqno: nat)
      requires Valid(Abs()) && seqno != |sent|
      modifies `resend
      ensures Abs() == MarkNotReceived(old(Abs()), seqno)
    {
      if seqno > |sent| {
        return;
      }
      resend := resend + {sent[seqno].seqno};
    }

    /** Everything from `nextChunk` on has to be sent again. */
    method MarkLostFrom(nextChunk: nat)
      requires Valid(Abs())
      modifies `resend
      ensures Abs() == MarkDropPoint(old(Abs()), nextChunk)
    {
      var i := nextChunk;
      while i < |sent|
        invariant nextChunk <= i && (i <= |sent| || i == nextChunk)
        invariant Valid(Abs())
        invariant resend == old(resend) + Range(nextChunk, i)
        decreases |sent| - i
      {
        MarksKeep(Abs(), i, 0);
        RangeSnoc(nextChunk, i);
        MarkLost(i);
        i := i + 1;
      }
      RangeEmpty(nextChunk, i, |sent|);
    }
  }

  lemma {:induction false} RangeSnoc(lo: nat, hi: nat)
    requires lo <= hi
    ensures Range(lo, hi + 1) == Range(lo, hi) + {hi}
    decreases hi - lo
  {
    if lo < hi {
      RangeSnoc(lo + 1, hi);
    }
  }

  lemma RangeEmpty(lo: nat, i: nat, hi: nat)
    requires i == hi || (i == lo && hi <= lo)
    ensures Range(lo, i) == Range(lo, hi)
  {
  }

  lemma GatherMore(all: seq<byte>, data: seq<byte>, offset: nat, c: seq<byte>, at: nat, from: nat, take: nat)
    requires offset + |data| <= |all| && data == all[offset..offset + |data|]
    requires at + |c| <= |all| && all[at..at + |c|] == c
    requires offset + |data| == at + from && from + take <= |c|
    ensures data + c[from..from + take] == all[offset..offset + |data| + take]
  {
    assert all[offset..offset + |data|] + all[offset + |data|..offset + |data| + take] == all[offset..offset + |data| + take];
  }

  lemma GetReadyHandsOutPieces(st: Sending, csock: nat, requested: nat)
    requires Valid(st)
    ensures var r := GetReady(st, csock, requested);
            && HandsOutPiece(st, r) && (st.resend != {} ==> r.length > 0)
            && (r.length > 0 && st.resend == {} && NextSeqno(st, csock) < |st.sent| ==>
                  r.length == st.sent[NextSeqno(st, csock)].length)
  {
    hide Valid, GetReady, HandsOutPiece;
    SeqnoBounded(st, csock);
    if st.resend != {} {
      ReadyResend(st, csock, requested);
    } else if NextSeqno(st, csock) < |st.sent| {
      ReadyBehind(st, csock, requested);
      BehindLength(st, csock, requested);
    } else {
      ReadyNew(st, csock, requested);
    }
  }

  lemma ReadyHasData(st: Sending, csock: nat, requested: nat)
    requires Valid(st)
    ensures var r := GetReady(st, csock, requested);
            && r.length == |r.data|
            && (st.resend != {} ==> r.length > 0)
            && (r.length > 0 && st.resend == {} && NextSeqno(st, csock) < |st.sent| ==>
                  r.length == st.sent[NextSeqno(st, csock)].length)
  {
    hide Valid, GetReady;
    GetReadyHandsOutPieces(st, csock, requested);
  }

  lemma SeqnoBounded(st: Sending, csock: nat)
    requires Valid(st)
    ensures NextSeqno(st, csock) <= |st.sent|
  {
    assert CursorOk(st, Slot(st, csock));
  }

  lemma BehindLength(st: Sending, csock: nat, requested: nat)
    requires Valid(st) && st.resend == {} && NextSeqno(st, csock) < |st.sent|
    ensures GetReady(st, csock, requested).length == st.sent[NextSeqno(st, csock)].length
  {
    hide Total, CursorOk, PiecesOf, GetBytes;
    var n := NextSeqno(st, csock);
    CursorPoints(st, csock);
    var offset := IrobOffset(st, csock);
    GetBytesAgain(st, n, if requested > 0 then requested else if offset <= st.numBytes then st.numBytes - offset else 0);
  }
}