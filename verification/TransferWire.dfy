/**
 What the two ends of an IPMsg file transfer exchange: the FILE_START offer with its
 per-chunk digests, and the length-prefixed frames that carry the chunks.
 */
module TransferWire {
  import opened Arithmetic
  import opened Bytes

  /** The digest and the cipher of one session. The random nonce of a sealed chunk is
      modelled by the number of the frame that draws it. */
  datatype Crypto = Crypto(hash: Data -> Data, seal: (nat, Data) -> Data, open: Data -> Data)

  /** A sealed chunk is 12 bytes of nonce, up to 16 bytes of padding and a 16-byte tag longer
      than the chunk. */
  const SEAL_MIN := 28
  const SEAL_MAX := 44

  ghost predicate CollisionFree(c: Crypto) {
    && (forall a, b :: c.hash(a) == c.hash(b) ==> a == b)
    && (forall a :: c.hash(a) != [])
  }

  ghost predicate Opens(c: Crypto) {
    forall n: nat, plain: Data {:trigger c.seal(n, plain)} :: plain != [] ==>
      && c.open(c.seal(n, plain)) == plain
      && SEAL_MIN <= |c.seal(n, plain)| <= |plain| + SEAL_MAX
  }

  // ---- Chunks and their digests ----

  /** How many bytes `QFile::read(size)` returns with `left` bytes to go. */
  function ReadSize(left: nat, size: nat): nat {
    if left <= size then left else size
  }

  function Chunks(s: Data, size: nat): (r: seq<Data>)
    requires 0 < size
    decreases |s|
  {
    if s == [] then [] else
      var k := ReadSize(|s|, size);
      [s[..k]] + Chunks(s[k..], size)
  }

  function Digests(c: Crypto, s: Data, size: nat): (r: seq<Data>)
    requires 0 < size
    decreases |s|
  {
    if s == [] then [] else
      var k := ReadSize(|s|, size);
      [c.hash(s[..k])] + Digests(c, s[k..], size)
  }

  /** The loop that digests a file chunk by chunk before it is offered. */
  method CalculateChunkMd5s(c: Crypto, file: Data, size: nat) returns (digests: seq<Data>)
    requires 0 < size
    ensures digests == Digests(c, file, size)
  {
    digests := [];
    var pos := 0;
    assert file[pos..] == file;
    while pos < |file|
      invariant 0 <= pos <= |file|
      invariant digests + Digests(c, file[pos..], size) == Digests(c, file, size)
    {
      var rest := file[pos..];
      var k := ReadSize(|rest|, size);
      assert rest[k..] == file[pos + k..];
      assert digests + ([c.hash(rest[..k])] + Digests(c, rest[k..], size))
          == (digests + [c.hash(rest[..k])]) + Digests(c, rest[k..], size);
      digests := digests + [c.hash(rest[..k])];
      pos := pos + k;
    }
  }

  /** `offset / chunkSize` is the index of the digest that belongs to the chunk starting at
      `offset`, provided the offset is a chunk boundary. */
  lemma DigestIndex(c: Crypto, s: Data, size: nat, offset: nat)
    requires 0 < size
    requires offset <= |s| && offset % size == 0
    ensures offset / size <= |Digests(c, s, size)|
    ensures Digests(c, s, size)[offset / size..] == Digests(c, s[offset..], size)
  {
    DigestIndexAt(c, s, size, offset / size, offset);
  }

  lemma {:induction false} DigestIndexAt(c: Crypto, s: Data, size: nat, i: nat, offset: nat)
    requires 0 < size
    requires offset == i * size && offset <= |s|
    ensures i <= |Digests(c, s, size)|
    ensures Digests(c, s, size)[i..] == Digests(c, s[offset..], size)
    decreases i
  {
    if i == 0 {
      assert s[0..] == s;
    } else {
      var before := offset - size;
      Predecessor(i, size);
      var tail := s[size..];
      DigestIndexAt(c, tail, size, i - 1, before);
      DigestsCons(c, s, size);
      assert tail[before..] == s[offset..];
    }
  }

  lemma DigestsCons(c: Crypto, s: Data, size: nat)
    requires 0 < size <= |s|
    ensures Digests(c, s, size) == [c.hash(s[..size])] + Digests(c, s[size..], size)
  {
  }

  // ---- The offer ----

  datatype Offer = Offer(total: nat, md5: Data, digests: seq<Data>, chunkSize: nat, encrypted: bool)

  /** The FILE_START header that `sendFile` and `connectSendSocket` build for a file. */
  function OfferFor(c: Crypto, source: Data, chunkSize: nat, encrypted: bool): Offer
    requires 0 < chunkSize
  {
    Offer(|source|, c.hash(source), Digests(c, source, chunkSize), chunkSize, encrypted)
  }

  // ---- Frames ----

  function Payload(c: Crypto, encrypted: bool, n: nat, chunk: Data): Data {
    if encrypted then c.seal(n, chunk) else chunk
  }

  /** The length prefix is a truncating cast to 32 bits. */
  function Frame(payload: Data): Data {
    LE32(|payload| % TWO_32) + payload
  }

  /** The data frames of `chunks`, in order; frame `n` is the next to be sealed. */
  function Stream(c: Crypto, encrypted: bool, n: nat, chunks: seq<Data>): Data
    decreases |chunks|
  {
    if chunks == [] then [] else
      Frame(Payload(c, encrypted, n, chunks[0])) + Stream(c, encrypted, n + 1, chunks[1..])
  }
}
