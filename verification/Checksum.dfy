/** The shift-add checksum that closes every message. */
module Checksum {
  import opened Bytes
  import opened Arithmetic

  /** Shift left by one and add the byte, in 32 bits. */
  function Sum(data: Data): (r: nat)
    ensures r < TWO_32
  {
    if data == [] then 0 else (2 * Sum(data[..|data| - 1]) + data[|data| - 1]) % TWO_32
  }

  method CalculateChecksum(data: Data) returns (checksum: nat)
    ensures checksum == Sum(data)
  {
    checksum := 0;
    for i := 0 to |data|
      invariant checksum == Sum(data[..i])
    {
      assert data[..i + 1][..i] == data[..i];
      checksum := (2 * checksum + data[i]) % TWO_32;
    }
    assert data[..|data|] == data;
  }

  /** Every byte weighted by two to the power of its distance from the end. */
  function Weighted(data: Data): nat {
    if data == [] then 0 else data[0] * Pow2(|data| - 1) + Weighted(data[1..])
  }

  lemma {:induction false} WeightedAppend(data: Data, b: Byte)
    ensures Weighted(data + [b]) == 2 * Weighted(data) + b
  {
    if data == [] {
      assert data + [b] == [b];
    } else {
      assert (data + [b])[1..] == data[1..] + [b];
      WeightedAppend(data[1..], b);
      Double(data[0], Pow2(|data| - 1));
    }
  }

  lemma Double(b: int, p: int)
    ensures b * (2 * p) == 2 * (b * p)
  {
  }

  lemma DropModulus(a: int, b: int)
    ensures (2 * (a % TWO_32) + b) % TWO_32 == (2 * a + b) % TWO_32
  {
    var q := a / TWO_32;
    AddMultiple(2 * (a % TWO_32) + b, 2 * q);
  }

  lemma AddMultiple(a: int, k: int)
    ensures (a + TWO_32 * k) % TWO_32 == a % TWO_32
  {
  }

  /** The checksum is the weighted sum modulo 2^32. */
  lemma {:induction false} SumIsWeighted(data: Data)
    ensures Sum(data) == Weighted(data) % TWO_32
  {
    if data != [] {
      var before, b := data[..|data| - 1], data[|data| - 1];
      SumIsWeighted(before);
      assert data == before + [b];
      WeightedAppend(before, b);
      DropModulus(Weighted(before), b);
    }
  }

  lemma {:induction false} WeightedUpdate(data: Data, i: nat, b: Byte)
    requires i < |data|
    ensures Weighted(data[i := b]) == Weighted(data) + (b - data[i]) * Pow2(|data| - 1 - i)
  {
    if i == 0 {
      assert data[i := b][1..] == data[1..];
      Distribute(b, data[0], Pow2(|data| - 1));
    } else {
      assert data[i := b][1..] == data[1..][i - 1 := b];
      WeightedUpdate(data[1..], i - 1, b);
    }
  }

  lemma Distribute(a: int, b: int, p: int)
    ensures (a - b) * p == a * p - b * p
  {
  }

  /** What a single changed byte does: it goes unnoticed exactly when its difference, shifted by
      its distance from the end, is a multiple of 2^32. */
  lemma ChangeUnnoticed(data: Data, i: nat, b: Byte)
    requires i < |data|
    ensures Sum(data[i := b]) == Sum(data) <==> (b - data[i]) * Pow2(|data| - 1 - i) % TWO_32 == 0
  {
    WeightedUpdate(data, i, b);
    ShiftUnnoticed(data, data[i := b], (b - data[i]) * Pow2(|data| - 1 - i));
  }

  lemma ShiftUnnoticed(data: Data, data': Data, d: int)
    requires Weighted(data') == Weighted(data) + d
    ensures Sum(data') == Sum(data) <==> d % TWO_32 == 0
  {
    SumIsWeighted(data);
    SumIsWeighted(data');
    SameResidue(Weighted(data), d);
  }

  lemma SameResidue(a: int, d: int)
    ensures (a + d) % TWO_32 == a % TWO_32 <==> d % TWO_32 == 0
  {
    if d % TWO_32 == 0 {
      AddMultiple(a, d / TWO_32);
    }
    if (a + d) % TWO_32 == a % TWO_32 {
      assert d == TWO_32 * ((a + d) / TWO_32 - a / TWO_32);
      AddMultiple(0, (a + d) / TWO_32 - a / TWO_32);
    }
  }

  lemma Pow2Of24()
    ensures Pow2(24) == 0x100_0000 && Pow2(32) == TWO_32
  {
    assert Pow2(8) == 256;
    assert Pow2(16) == 65536;
    assert Pow2(24) == 0x100_0000;
  }

  /** Any single changed byte among the last 25 is noticed, however long the data. */
  lemma LastBytesAreCovered(data: Data, i: nat, b: Byte)
    requires i < |data| <= i + 25 && b != data[i]
    ensures Sum(data[i := b]) != Sum(data)
  {
    var d := |data| - 1 - i;
    ChangeUnnoticed(data, i, b);
    Pow2Bound(d, 24);
    Pow2Of24();
    SmallProduct(b - data[i], Pow2(d));
  }

  lemma SmallProduct(delta: int, p: int)
    requires delta != 0 && -256 < delta < 256 && 1 <= p <= 0x100_0000
    ensures delta * p % TWO_32 != 0
  {
    if 0 < delta {
      ProductBounds(delta, p);
    } else {
      ProductBounds(-delta, p);
      assert delta * p == -(-delta * p);
    }
  }

  lemma ProductBounds(delta: nat, p: nat)
    requires 0 < delta < 256
    ensures p <= delta * p <= 255 * p
  {
    assert delta * p - p == (delta - 1) * p;
    assert 255 * p - delta * p == (255 - delta) * p;
  }

  /** A changed byte with 32 or more bytes behind it never is. */
  lemma EarlyBytesAreNot(data: Data, i: nat, b: Byte)
    requires i + 32 < |data|
    ensures Sum(data[i := b]) == Sum(data)
  {
    var d := |data| - 1 - i;
    ChangeUnnoticed(data, i, b);
    Pow2Of24();
    Pow2Sum(d - 32, 32);
    Reorder(b - data[i], Pow2(d - 32));
    AddMultiple(0, (b - data[i]) * Pow2(d - 32));
  }

  lemma Reorder(a: int, p: int)
    ensures a * (p * TWO_32) == TWO_32 * (a * p)
  {
  }
}
