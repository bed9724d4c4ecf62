/**
 The offset-addressed upload: the controller reads its file chunk by chunk on a timer, and the
 host writes every chunk at the offset it carries.
 */
module Upload {
  import opened Arithmetic
  import opened Bytes
  import opened Options

  const CHUNK_SIZE := 65536

  datatype FileData = FileData(offset: nat, data: Data)

  // ---- The controller ----

  /** `pos` is the position of the open file, `offset` the `request.offset` that is announced. */
  datatype Sending = Sending(pos: nat, offset: nat, bytesSent: nat, open: bool)

  /** `QFile::read(CHUNK_SIZE)`. */
  function Read(source: Data, pos: nat): Data {
    if |source| <= pos then [] else source[pos..if pos + CHUNK_SIZE <= |source| then pos + CHUNK_SIZE else |source|]
  }

  /** One `sendNextChunk`. */
  function SendNext(source: Data, s: Sending): (Sending, Option<FileData>) {
    var chunk := Read(source, s.pos);
    if !s.open then (s, None)
    else if chunk == [] then (s.(open := false), None)
    else (Sending(s.pos + |chunk|, s.offset + |chunk|, s.bytesSent + |chunk|, true), Some(FileData(s.offset, chunk)))
  }

  /** The state and the messages after `n` ticks of the send timer. */
  function Ticks(source: Data, n: nat): (Sending, seq<FileData>) {
    if n == 0 then (Sending(0, 0, 0, true), []) else
      var (s, sent) := Ticks(source, n - 1);
      var (next, message) := SendNext(source, s);
      (next, if message.Some? then sent + [message.value] else sent)
  }

  class Uploader {
    const source: Data
    var pos: nat
    var offset: nat
    var bytesSent: nat
    var isOpen: bool

    ghost function AsSending(): Sending
      reads this
    {
      Sending(pos, offset, bytesSent, isOpen)
    }

    constructor (source: Data)
      ensures this.source == source && AsSending() == Sending(0, 0, 0, true)
    {
      this.source := source;
      pos, offset, bytesSent, isOpen := 0, 0, 0, true;
    }

    method SendNextChunk() returns (message: Option<FileData>)
      modifies this
      ensures (AsSending(), message) == SendNext(source, old(AsSending()))
    {
      if !isOpen {
        return None;
      }
      var chunk := Read(source, pos);
      pos := pos + |chunk|;
      if chunk == [] {
        isOpen := false;
        return None;
      }
      message := Some(FileData(offset, chunk));
      offset := offset + |chunk|;
      bytesSent := bytesSent + |chunk|;
    }
  }

  // ---- The pieces ----

  /** How many pieces cover `size` bytes. */
  function Count(size: nat): nat {
    (size + (CHUNK_SIZE - 1)) / CHUNK_SIZE
  }

  /** A full piece is 64 KiB. */
  lemma FullPiece()
    ensures Count(0) == 0 && Count(1) == Count(65536) == 1 && Count(65537) == 2
  {
  }

  function End(size: nat, k: nat): nat {
    if (k + 1) * CHUNK_SIZE <= size then (k + 1) * CHUNK_SIZE else size
  }

  function Piece(source: Data, k: nat): (piece: FileData)
    requires k < Count(|source|)
    ensures 0 < |piece.data| <= CHUNK_SIZE && piece.offset + |piece.data| == End(|source|, k) <= |source|
  {
    FileData(k * CHUNK_SIZE, source[k * CHUNK_SIZE..End(|source|, k)])
  }

  /** The state after `n` ticks. */
  function Sent(size: nat, n: nat): Sending {
    var at := if n == 0 then 0 else if n <= Count(size) then End(size, n - 1) else size;
    Sending(at, at, at, n <= Count(size))
  }

  /** Before the last piece has gone out a tick sends the next one; the tick after it closes the
      file, and later ones do nothing. */
  lemma TickSendsThePiece(source: Data, n: nat)
    ensures SendNext(source, Sent(|source|, n))
         == (Sent(|source|, n + 1), if n < Count(|source|) then Some(Piece(source, n)) else None)
  {
  }

  function FirstPieces(source: Data, n: nat): (pieces: seq<FileData>)
    requires n <= Count(|source|)
    ensures |pieces| == n && forall k | 0 <= k < n :: pieces[k] == Piece(source, k)
  {
    if n == 0 then [] else FirstPieces(source, n - 1) + [Piece(source, n - 1)]
  }

  lemma NextPiece(source: Data, n: nat)
    ensures FirstPieces(source, Min(n + 1, Count(|source|)))
         == FirstPieces(source, Min(n, Count(|source|))) + if n < Count(|source|) then [Piece(source, n)] else []
  {
  }

  predicate SendsThePieces(source: Data, n: nat) {
    Ticks(source, n) == (Sent(|source|, n), FirstPieces(source, Min(n, Count(|source|))))
  }

  lemma NextTick(source: Data, n: nat)
    requires SendsThePieces(source, n)
    ensures SendsThePieces(source, n + 1)
  {
    TickSendsThePiece(source, n);
    NextPiece(source, n);
  }

  /** Tick by tick the pieces go out, in order and without overlap, and the tick after the last
      one closes the file. */
  lemma {:induction false} TicksSendThePieces(source: Data, n: nat)
    ensures SendsThePieces(source, n)
  {
    if 0 < n {
      TicksSendThePieces(source, n - 1);
      NextTick(source, n - 1);
    }
  }

  function Joined(source: Data, n: nat): Data
    requires n <= Count(|source|)
  {
    if n == 0 then [] else Joined(source, n - 1) + Piece(source, n - 1).data
  }

  /** The pieces tile the source: each starts where the one before it ends, and together they are
      the whole. */
  lemma {:induction false} PiecesTile(source: Data, n: nat)
    requires n <= Count(|source|)
    ensures Joined(source, n) == source[..Sent(|source|, n).pos]
    ensures n < Count(|source|) ==> Piece(source, n).offset == |Joined(source, n)|
    ensures n == Count(|source|) ==> Joined(source, n) == source
  {
    if 0 < n {
      PiecesTile(source, n - 1);
    }
  }

  // ---- The host ----

  datatype Receiving = Receiving(file: Data, fileSize: nat, bytesReceived: nat, open: bool)

  /** `handleFileRequest` of an upload truncates the target. */
  function Request(fileSize: nat): Receiving {
    Receiving([], fileSize, 0, true)
  }

  /** One `handleFileData`; without an open transfer nothing happens. */
  function Arrive(h: Receiving, d: FileData): Receiving {
    if !h.open then h else
      var received := h.bytesReceived + |d.data|;
      Receiving(WriteAt(h.file, d.offset, d.data), h.fileSize, received, !(0 < h.fileSize <= received))
  }

  function ArriveAll(h: Receiving, ds: seq<FileData>): Receiving {
    if ds == [] then h else Arrive(ArriveAll(h, ds[..|ds| - 1]), ds[|ds| - 1])
  }

  class HostTransfer {
    var file: Data
    var fileSize: nat
    var bytesReceived: nat
    var isOpen: bool

    ghost function AsReceiving(): Receiving
      reads this
    {
      Receiving(file, fileSize, bytesReceived, isOpen)
    }

    constructor HandleFileRequest(fileSize: nat)
      ensures AsReceiving() == Request(fileSize)
    {
      file, bytesReceived, isOpen := [], 0, true;
      this.fileSize := fileSize;
    }

    method HandleFileData(d: FileData)
      modifies this
      ensures AsReceiving() == Arrive(old(AsReceiving()), d)
    {
      if isOpen {
        file := WriteAt(file, d.offset, d.data);
        bytesReceived := bytesReceived + |d.data|;
        if fileSize > 0 && bytesReceived >= fileSize {
          isOpen := false;
        }
      }
    }
  }

  /** An empty chunk changes nothing, wherever it is addressed, as long as the transfer has not
      received its size. */
  lemma EmptyChunkChangesNothing(h: Receiving, offset: nat)
    requires h.open ==> h.fileSize == 0 || h.bytesReceived < h.fileSize
    ensures Arrive(h, FileData(offset, [])) == h
  {
  }

  // ---- What arrivals leave behind ----

  /** Pieces as they arrive, any of them any number of times. */
  predicate Indices(source: Data, order: seq<nat>) {
    forall i | 0 <= i < |order| :: order[i] < Count(|source|)
  }

  function Pieces(source: Data, order: seq<nat>): (ds: seq<FileData>)
    requires Indices(source, order)
    ensures |ds| == |order|
  {
    seq(|order|, i requires 0 <= i < |order| => Piece(source, order[i]))
  }

  /** The file holds the bytes of a piece. */
  predicate Has(file: Data, source: Data, k: nat)
    requires k < Count(|source|)
  {
    End(|source|, k) <= |file|
    && file[k * CHUNK_SIZE..End(|source|, k)] == source[k * CHUNK_SIZE..End(|source|, k)]
  }

  lemma WriteKeeps(file: Data, pos: nat, data: Data, a: nat, b: nat)
    requires a <= b <= |file| && (b <= pos || pos + |data| <= a)
    ensures b <= |WriteAt(file, pos, data)| && WriteAt(file, pos, data)[a..b] == file[a..b]
  {
  }

  lemma WritePuts(file: Data, pos: nat, data: Data)
    requires data != []
    ensures |WriteAt(file, pos, data)| == if |file| <= pos + |data| then pos + |data| else |file|
    ensures WriteAt(file, pos, data)[pos..pos + |data|] == data
  {
  }

  lemma ArrivalKeeps(file: Data, source: Data, j: nat, k: nat)
    requires j < Count(|source|) && k < Count(|source|) && j != k && Has(file, source, j)
    ensures Has(WriteAt(file, k * CHUNK_SIZE, Piece(source, k).data), source, j)
  {
    WriteKeeps(file, k * CHUNK_SIZE, Piece(source, k).data, j * CHUNK_SIZE, End(|source|, j));
  }

  lemma {:induction false} AllPiecesAreTheSource(file: Data, source: Data, n: nat)
    requires n <= Count(|source|) && |file| <= |source|
    requires forall k: nat | k < n :: Has(file, source, k)
    ensures 0 < n ==> End(|source|, n - 1) <= |file| && file[..End(|source|, n - 1)] == source[..End(|source|, n - 1)]
  {
    if 0 < n {
      AllPiecesAreTheSource(file, source, n - 1);
      assert Has(file, source, n - 1);
      var a, b := (n - 1) * CHUNK_SIZE, End(|source|, n - 1);
      assert file[..b] == file[..a] + file[a..b] && source[..b] == source[..a] + source[a..b];
      assert 1 < n ==> End(|source|, n - 2) == a;
    }
  }

  /** The bytes of all arrivals. */
  function Length(source: Data, order: seq<nat>): nat
    requires Indices(source, order)
  {
    if order == [] then 0
    else Length(source, order[..|order| - 1]) + |Piece(source, order[|order| - 1]).data|
  }

  predicate Silent(source: Data, k: nat)
    requires k < Count(|source|)
  {
    forall i | k * CHUNK_SIZE <= i < End(|source|, k) :: source[i] == 0
  }

  /** What the file has of a piece that has not arrived: nothing, or zeros up to a later one. */
  predicate Hole(file: Data, source: Data, k: nat)
    requires k < Count(|source|)
  {
    forall i | k * CHUNK_SIZE <= i < End(|source|, k) && i < |file| :: file[i] == 0
  }

  ghost predicate Laid(file: Data, source: Data, order: seq<nat>) {
    && |file| <= |source|
    && (|file| == |source| <==> source == [] || Count(|source|) - 1 in order)
    && forall k: nat | k < Count(|source|) :: if k in order then Has(file, source, k) else Hole(file, source, k)
  }

  lemma WriteElsewhere(file: Data, pos: nat, data: Data, i: nat)
    requires data != [] && i < |WriteAt(file, pos, data)| && !(pos <= i < pos + |data|)
    ensures WriteAt(file, pos, data)[i] == if i < |file| then file[i] else 0
  {
  }

  lemma HoleStays(file: Data, source: Data, j: nat, k: nat)
    requires j < Count(|source|) && k < Count(|source|) && j != k && Hole(file, source, j)
    ensures Hole(WriteAt(file, k * CHUNK_SIZE, Piece(source, k).data), source, j)
  {
    var d := Piece(source, k);
    var after := WriteAt(file, d.offset, d.data);
    forall i | j * CHUNK_SIZE <= i < End(|source|, j) && i < |after| ensures after[i] == 0 {
      WriteElsewhere(file, d.offset, d.data, i);
    }
  }

  lemma ArrivalIsLaid(file: Data, source: Data, order: seq<nat>, k: nat)
    requires k < Count(|source|) && Laid(file, source, order)
    ensures Laid(WriteAt(file, k * CHUNK_SIZE, Piece(source, k).data), source, order + [k])
  {
    var d := Piece(source, k);
    var after := WriteAt(file, d.offset, d.data);
    WritePuts(file, d.offset, d.data);
    forall j: nat | j < Count(|source|)
      ensures if j in order + [k] then Has(after, source, j) else Hole(after, source, j)
    {
      if j != k {
        if j in order {
          ArrivalKeeps(file, source, j, k);
        } else {
          HoleStays(file, source, j, k);
        }
      }
    }
  }

  /** What the host has taken in, arrivals being counted by their bytes. */
  ghost predicate TakenIn(h: Receiving, source: Data, order: seq<nat>)
    requires Indices(source, order)
  {
    && h.fileSize == |source| && h.bytesReceived == Length(source, order)
    && (h.open <==> Length(source, order) < |source|) && Laid(h.file, source, order)
  }

  lemma TakeInOneMore(h: Receiving, source: Data, order: seq<nat>, k: nat)
    requires source != [] && Indices(source, order) && k < Count(|source|)
    requires TakenIn(h, source, order) && h.open
    ensures Indices(source, order + [k]) && TakenIn(Arrive(h, Piece(source, k)), source, order + [k])
  {
    assert (order + [k])[..|order|] == order;
    ArrivalIsLaid(h.file, source, order, k);
  }

  /** The state after the pieces of `order` have arrived. */
  function After(source: Data, order: seq<nat>): Receiving
    requires Indices(source, order)
  {
    ArriveAll(Request(|source|), Pieces(source, order))
  }

  lemma AfterOneMore(source: Data, order: seq<nat>)
    requires Indices(source, order) && order != []
    ensures
      var before, k := order[..|order| - 1], order[|order| - 1];
      After(source, order) == Arrive(After(source, before), Piece(source, k))
  {
    assert Pieces(source, order)[..|order| - 1] == Pieces(source, order[..|order| - 1]);
  }

  /** As long as the transfer is open before the last arrival. */
  lemma {:induction false} RunTakesIn(source: Data, order: seq<nat>)
    requires source != [] && Indices(source, order)
    requires order == [] || Length(source, order[..|order| - 1]) < |source|
    ensures TakenIn(After(source, order), source, order)
    decreases |order|
  {
    if order != [] {
      var before, k := order[..|order| - 1], order[|order| - 1];
      RunTakesIn(source, before);
      AfterOneMore(source, order);
      assert order == before + [k];
      TakeInOneMore(After(source, before), source, before, k);
    }
  }

  /** A file laid out from pieces is the source exactly when the last piece is there and every
      other is there too, or is all zeros and so looks like the gap it leaves. */
  lemma LaidIsSource(file: Data, source: Data, order: seq<nat>)
    requires source != [] && Laid(file, source, order)
    ensures file == source
      <==> (Count(|source|) - 1 in order
            && forall k: nat | k < Count(|source|) :: k in order || Silent(source, k))
  {
    if |file| == |source| {
      forall k: nat | k < Count(|source|) ensures Has(file, source, k) <==> k in order || Silent(source, k) {
        if k !in order {
          HoleIsSilent(file, source, k);
        }
      }
      if forall k: nat | k < Count(|source|) :: k in order || Silent(source, k) {
        AllPiecesAreTheSource(file, source, Count(|source|));
      } else {
        var k: nat :| k < Count(|source|) && !(k in order || Silent(source, k));
        assert !Has(file, source, k);
      }
    }
  }

  lemma HoleIsSilent(file: Data, source: Data, k: nat)
    requires k < Count(|source|) && |file| == |source| && Hole(file, source, k)
    ensures Has(file, source, k) <==> Silent(source, k)
  {
    var a, b := k * CHUNK_SIZE, End(|source|, k);
    if Has(file, source, k) {
      forall i | a <= i < b ensures source[i] == 0 {
        assert source[i] == source[a..b][i - a] == file[a..b][i - a] == file[i];
      }
    }
  }

  // ---- Any order of arrival ----

  /** An order in which pieces arrive, none of them twice. */
  predicate Order(source: Data, order: seq<nat>) {
    Indices(source, order) && forall i, j | 0 <= i < j < |order| :: order[i] != order[j]
  }

  /** The bytes of the first `n` pieces that have not arrived. */
  function Missing(source: Data, order: seq<nat>, n: nat): nat
    requires n <= Count(|source|)
  {
    if n == 0 then 0 else
      (if n - 1 in order then 0 else |Piece(source, n - 1).data|) + Missing(source, order, n - 1)
  }

  lemma {:induction false} EverythingIsMissing(source: Data, n: nat)
    requires n <= Count(|source|)
    ensures Missing(source, [], n) == if n == 0 then 0 else End(|source|, n - 1)
  {
    if 0 < n {
      EverythingIsMissing(source, n - 1);
    }
  }

  lemma {:induction false} NothingIsMissing(source: Data, order: seq<nat>, n: nat)
    requires n <= Count(|source|)
    ensures Missing(source, order, n) == 0 <==> forall k | 0 <= k < n :: k in order
  {
    if 0 < n {
      NothingIsMissing(source, order, n - 1);
    }
  }

  lemma {:induction false} ArrivalIsNotMissing(source: Data, order: seq<nat>, k: nat, n: nat)
    requires n <= Count(|source|) && k < Count(|source|) && k !in order
    ensures Missing(source, order, n)
         == Missing(source, order + [k], n) + (if k < n then |Piece(source, k).data| else 0)
  {
    if 0 < n {
      ArrivalIsNotMissing(source, order, k, n - 1);
      assert n - 1 in order + [k] <==> n - 1 in order || n - 1 == k;
    }
  }

  /** What has arrived and what has not are the whole. */
  lemma {:induction false} LengthAndMissing(source: Data, order: seq<nat>)
    requires Order(source, order)
    ensures Length(source, order) + Missing(source, order, Count(|source|)) == |source|
    decreases |order|
  {
    if order == [] {
      EverythingIsMissing(source, Count(|source|));
    } else {
      var before, k := order[..|order| - 1], order[|order| - 1];
      LengthAndMissing(source, before);
      ArrivalIsNotMissing(source, before, k, Count(|source|));
      assert order == before + [k];
    }
  }

  lemma OrderIsTakenIn(source: Data, order: seq<nat>)
    requires source != [] && Order(source, order)
    ensures TakenIn(After(source, order), source, order)
    ensures Length(source, order) == |source| <==> forall k: nat | k < Count(|source|) :: k in order
    ensures Length(source, order) <= |source|
  {
    LengthAndMissing(source, order);
    NothingIsMissing(source, order, Count(|source|));
    if order != [] {
      LengthAndMissing(source, order[..|order| - 1]);
    }
    RunTakesIn(source, order);
  }

  /** In whatever order distinct pieces arrive, the transfer closes exactly when the last missing
      one does, and then the host has the source. */
  lemma AnyOrderDelivers(source: Data, order: seq<nat>)
    requires source != [] && Order(source, order)
    ensures
      var h := After(source, order);
      && (!h.open <==> forall k: nat | k < Count(|source|) :: k in order)
      && (!h.open ==> h.file == source)
  {
    OrderIsTakenIn(source, order);
    LaidIsSource(After(source, order).file, source, order);
  }

  /** Controller and host together: when the controller has run to its end, its messages, in any
      order, leave the host with the source and nothing to wait for. */
  lemma UploadArrives(source: Data, n: nat, order: seq<nat>)
    requires source != [] && Count(|source|) <= n && Order(source, order)
    requires forall k: nat | k < Count(|source|) :: k in order
    ensures
      var sent := Ticks(source, n).1;
      && |sent| == Count(|source|)
      && ArriveAll(Request(|source|), seq(|order|, i requires 0 <= i < |order| => sent[order[i]]))
         == Receiving(source, |source|, |source|, false)
  {
    TicksSendThePieces(source, n);
    var sent := Ticks(source, n).1;
    assert seq(|order|, i requires 0 <= i < |order| => sent[order[i]]) == Pieces(source, order);
    OrderIsTakenIn(source, order);
    AnyOrderDelivers(source, order);
  }

  // ---- Pieces that arrive more than once ----

  /** The arrivals up to the first at which their bytes add up to the size. */
  function Heard(source: Data, order: seq<nat>): (heard: seq<nat>)
    requires Indices(source, order) && |source| <= Length(source, order) && source != []
    ensures heard <= order && heard != [] && Indices(source, heard)
    ensures Length(source, heard[..|heard| - 1]) < |source| <= Length(source, heard)
  {
    if |source| <= Length(source, order[..|order| - 1]) then Heard(source, order[..|order| - 1]) else order
  }

  lemma {:induction false} ClosedStays(h: Receiving, first: seq<FileData>, ds: seq<FileData>)
    requires !ArriveAll(h, first).open && first <= ds
    ensures ArriveAll(h, ds) == ArriveAll(h, first)
    decreases |ds|
  {
    if |first| < |ds| {
      ClosedStays(h, first, ds[..|ds| - 1]);
    } else {
      assert ds == first;
    }
  }

  /** With repetitions, whatever the order: the transfer closes at the first arrival at which the
      bytes of all arrivals add up to the size, and it then has the source if and only if the last
      piece has arrived by then, and every other piece has or is all zeros; without an all-zero
      piece, if and only if every piece has. What arrives later changes nothing. */
  lemma RepeatsCloseExactly(source: Data, order: seq<nat>)
    requires source != [] && Indices(source, order)
    ensures
      var h := After(source, order);
      && (!h.open <==> |source| <= Length(source, order))
      && (!h.open ==>
            var heard := Heard(source, order);
            && h == After(source, heard)
            && h.bytesReceived == Length(source, heard)
            && (h.file == source
                <==> (Count(|source|) - 1 in heard
                      && forall k: nat | k < Count(|source|) :: k in heard || Silent(source, k))))
  {
    if |source| <= Length(source, order) {
      var heard := Heard(source, order);
      RunTakesIn(source, heard);
      ClosedStays(Request(|source|), Pieces(source, heard), Pieces(source, order));
      LaidIsSource(After(source, heard).file, source, heard);
    } else {
      RunTakesIn(source, order);
    }
  }

  /** For a source without an all-zero piece: exactly when no piece is missing. */
  lemma RepeatsNeedEveryPiece(source: Data, order: seq<nat>)
    requires source != [] && Indices(source, order) && |source| <= Length(source, order)
    requires forall k: nat | k < Count(|source|) :: !Silent(source, k)
    ensures After(source, order).file == source
      <==> forall k: nat | k < Count(|source|) :: k in Heard(source, order)
  {
    RepeatsCloseExactly(source, order);
  }

  /** Bytes are counted, not offsets: a first piece that arrives twice closes a transfer of two
      pieces without the second one. */
  lemma RepeatedPieceClosesEarly(source: Data)
    requires CHUNK_SIZE < |source| <= 2 * CHUNK_SIZE
    ensures
      var d := Piece(source, 0);
      var h := ArriveAll(Request(|source|), [d, d]);
      !h.open && h.file == source[..CHUNK_SIZE] != source
  {
    var d := Piece(source, 0);
    assert [d, d][..1] == [d] && [d][..0] == [];
    assert ArriveAll(Request(|source|), [d]) == Arrive(Request(|source|), d);
    assert WriteAt([], 0, d.data) == d.data == WriteAt(d.data, 0, d.data);
  }

  /** A first piece of zeros need not arrive at all: the second piece twice closes the transfer
      with the whole source. */
  lemma ZeroPieceIsNotMissed(source: Data)
    requires |source| == 2 * CHUNK_SIZE && Silent(source, 0)
    ensures
      var h := After(source, [1, 1]);
      !h.open && h.file == source
  {
    var order: seq<nat> := [1, 1];
    assert order[..1] == [1] && order[..1][..0] == [];
    assert Length(source, order[..1]) == CHUNK_SIZE;
    RepeatsCloseExactly(source, order);
    assert Heard(source, order) == order;
  }

  // ---- No pieces at all ----

  /** An empty file is never closed, whatever arrives: its size is taken for unknown. */
  lemma {:induction false} EmptyUploadStaysOpen(ds: seq<FileData>)
    ensures ArriveAll(Request(0), ds).open
  {
    if ds != [] {
      EmptyUploadStaysOpen(ds[..|ds| - 1]);
      SizeStays(Request(0), ds[..|ds| - 1]);
    }
  }

  lemma {:induction false} SizeStays(h: Receiving, ds: seq<FileData>)
    ensures ArriveAll(h, ds).fileSize == h.fileSize
  {
    if ds != [] {
      SizeStays(h, ds[..|ds| - 1]);
    }
  }
}
