/** Byte strings and the fixed-width integers the wire formats are made of. */
module Bytes {

  type Byte = x: int | 0 <= x < 256
  type Data = seq<Byte>

  const TWO_31 := 0x8000_0000
  const TWO_32 := 0x1_0000_0000
  const TWO_64 := 0x1_0000_0000_0000_0000

  /** Four bytes, least significant first (`qToLittleEndian`). */
  function LE32(n: nat): (r: Data)
    requires n < TWO_32
    ensures |r| == 4
  {
    [n % 256, n / 256 % 256, n / 256 / 256 % 256, n / 256 / 256 / 256]
  }

  function FromLE32(b: Data): (n: nat)
    requires |b| == 4
    ensures n < TWO_32
  {
    var b0: int, b1: int, b2: int, b3: int := b[0], b[1], b[2], b[3];
    b0 + 256 * b1 + 65536 * b2 + 16777216 * b3
  }

  lemma LE32RoundTrip(n: nat)
    requires n < TWO_32
    ensures FromLE32(LE32(n)) == n
  {
  }

  /** Four bytes, most significant first (`QDataStream::BigEndian`). */
  function BE32(n: nat): (r: Data)
    requires n < TWO_32
    ensures |r| == 4
  {
    [n / 256 / 256 / 256, n / 256 / 256 % 256, n / 256 % 256, n % 256]
  }

  function FromBE32(b: Data): (n: nat)
    requires |b| == 4
    ensures n < TWO_32
  {
    var b0: int, b1: int, b2: int, b3: int := b[0], b[1], b[2], b[3];
    16777216 * b0 + 65536 * b1 + 256 * b2 + b3
  }

  lemma BE32RoundTrip(n: nat)
    requires n < TWO_32
    ensures FromBE32(BE32(n)) == n
  {
  }

  lemma BE32Inverse(b: Data)
    requires |b| == 4
    ensures BE32(FromBE32(b)) == b
  {
    var b0: int, b1: int, b2: int, b3: int := b[0], b[1], b[2], b[3];
    var n := FromBE32(b);
    assert n / 256 == 65536 * b0 + 256 * b1 + b2;
    assert n / 256 / 256 == 256 * b0 + b1;
  }

  function Zeros(n: nat): (r: Data)
    ensures |r| == n
  {
    seq(n, _ => 0)
  }

  function Flatten(parts: seq<Data>): Data {
    if parts == [] then [] else parts[0] + Flatten(parts[1..])
  }

  /** Writing at a file position; a gap past the end reads as zeros. */
  function WriteAt(disk: Data, pos: nat, data: Data): Data {
    if data == [] then disk else
      (if pos <= |disk| then disk[..pos] else disk + seq(pos - |disk|, _ => 0))
      + data
      + (if pos + |data| <= |disk| then disk[pos + |data|..] else [])
  }
}

module Options {
  datatype Option<+T> = None | Some(value: T)
}
