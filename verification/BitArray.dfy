/** library/include/BitArray.h: a growable bit buffer, against the set of the indices that are set.
    Unset bits past the end read as clear. The host is little-endian, as the casts of the original need. */
module BitArrays {

  /** 1 << k */
  function Mask(k: nat): bv8 {
    if k == 0 then 1 else if k == 1 then 2 else if k == 2 then 4 else if k == 3 then 8
    else if k == 4 then 16 else if k == 5 then 32 else if k == 6 then 64 else 128
  }

  predicate BitOf(b: bv8, k: nat) {
    b & Mask(k) != 0
  }

  lemma OrSets(b: bv8, k: nat, j: nat)
    requires j < 8 && k < 8
    ensures BitOf(b | Mask(k), j) <==> j == k || BitOf(b, j)
  {
  }

  lemma AndClears(b: bv8, k: nat, j: nat)
    requires j < 8 && k < 8
    ensures BitOf(b & !Mask(k), j) <==> j != k && BitOf(b, j)
  {
  }

  lemma XorFlips(b: bv8, k: nat, j: nat)
    requires j < 8 && k < 8
    ensures BitOf(b ^ Mask(k), j) <==> if j == k then !BitOf(b, j) else BitOf(b, j)
  {
  }

  function Pow2(n: nat): (p: nat)
    ensures p > 0
  {
    if n == 0 then 1 else 2 * Pow2(n - 1)
  }

  /** The sum of 2^i over the members below n. */
  ghost function SumBits(s: set<nat>, n: nat): nat {
    if n == 0 then 0 else SumBits(s, n - 1) + if n - 1 in s then Pow2(n - 1) else 0
  }

  /** The value of the lowest k bits of a byte. */
  ghost function Low(b: bv8, k: nat): nat {
    if k == 0 then 0 else Low(b, k - 1) + if BitOf(b, k - 1) then Pow2(k - 1) else 0
  }

  function Spelled(b: bv8): nat {
    (if BitOf(b, 0) then 1 else 0) + (if BitOf(b, 1) then 2 else 0) + (if BitOf(b, 2) then 4 else 0)
    + (if BitOf(b, 3) then 8 else 0) + (if BitOf(b, 4) then 16 else 0) + (if BitOf(b, 5) then 32 else 0)
    + (if BitOf(b, 6) then 64 else 0) + (if BitOf(b, 7) then 128 else 0)
  }

  lemma SpelledIsValue(b: bv8)
    ensures Spelled(b) == b as nat
  {
  }

  lemma LowIsSpelled(b: bv8)
    ensures Low(b, 8) == Spelled(b)
  {
    hide BitOf;
    assert Pow2(1) == 2 && Pow2(2) == 4 && Pow2(3) == 8 && Pow2(4) == 16 && Pow2(5) == 32 && Pow2(6) == 64 && Pow2(7) == 128;
    assert Low(b, 1) == Low(b, 0) + if BitOf(b, 0) then 1 else 0;
    assert Low(b, 2) == Low(b, 1) + if BitOf(b, 1) then 2 else 0;
    assert Low(b, 3) == Low(b, 2) + if BitOf(b, 2) then 4 else 0;
    assert Low(b, 4) == Low(b, 3) + if BitOf(b, 3) then 8 else 0;
    assert Low(b, 5) == Low(b, 4) + if BitOf(b, 4) then 16 else 0;
    assert Low(b, 6) == Low(b, 5) + if BitOf(b, 5) then 32 else 0;
    assert Low(b, 7) == Low(b, 6) + if BitOf(b, 6) then 64 else 0;
    assert Low(b, 8) == Low(b, 7) + if BitOf(b, 7) then 128 else 0;
  }

  lemma ByteIsItsBits(b: bv8)
    ensures Low(b, 8) == b as nat
  {
    hide BitOf, Low, Spelled;
    SpelledIsValue(b);
    LowIsSpelled(b);
  }

  lemma {:induction false} Pow2Sum(m: nat, n: nat)
    ensures Pow2(m + n) == Pow2(m) * Pow2(n)
  {
    if n > 0 {
      Pow2Sum(m, n - 1);
    }
  }

  /** The next k bits add the value of a byte's low bits, in its place. */
  lemma {:induction false} BitsSum(s: set<nat>, m: nat, b: bv8, k: nat)
    requires forall i | 0 <= i < k :: m + i in s <==> BitOf(b, i)
    ensures SumBits(s, m + k) == SumBits(s, m) + Pow2(m) * Low(b, k)
  {
    hide BitOf;
    if k > 0 {
      BitsSum(s, m, b, k - 1);
      Pow2Sum(m, k - 1);
      var d := if BitOf(b, k - 1) then Pow2(k - 1) else 0;
      assert Low(b, k) == Low(b, k - 1) + d;
      Distribute(Pow2(m), Low(b, k - 1), d);
    }
  }

  lemma Distribute(p: int, x: int, y: int)
    ensures p * (x + y) == p * x + p * y
  {
  }

  /** One more byte of the buffer adds its value in its place. */
  lemma ByteSum(s: set<nat>, j: nat, b: bv8)
    requires forall k | 0 <= k < 8 :: 8 * j + k in s <==> BitOf(b, k)
    ensures SumBits(s, 8 * j + 8) == SumBits(s, 8 * j) + Pow2(8 * j) * (b as nat)
  {
    hide BitOf;
    ByteIsItsBits(b);
    BitsSum(s, 8 * j, b, 8);
  }

  lemma SumBitsNone(s: set<nat>)
    ensures SumBits(s, 0) == 0
  {
  }

  lemma {:induction false} SumBitsTail(s: set<nat>, n: nat, m: nat)
    requires n <= m && forall i | i in s :: i < n
    ensures SumBits(s, m) == SumBits(s, n)
  {
    if n < m {
      SumBitsTail(s, n, m - 1);
    }
  }

  /** The places of the first four bytes, and the place after them. */
  lemma Places(i: nat)
    requires i <= 4
    ensures Pow2(8 * i) == if i == 0 then 1 else if i == 1 then 0x100 else if i == 2 then 0x1_0000
                           else if i == 3 then 0x100_0000 else 0x1_0000_0000
  {
    assert Pow2(8) == 0x100;
    Pow2Sum(8, 8);
    Pow2Sum(16, 8);
    Pow2Sum(24, 8);
  }

  /** The next base-256 digit of a number. */
  lemma NextDigit(data: nat, i: nat)
    requires i < 4
    ensures data % Pow2(8 * i + 8) == data % Pow2(8 * i) + Pow2(8 * i) * (data / Pow2(8 * i) % 0x100)
  {
    hide Pow2;
    Places(i);
    Places(i + 1);
    if i == 1 {
      Digit1(data);
    } else if i == 2 {
      Digit2(data);
    } else if i == 3 {
      Digit3(data);
    }
  }

  lemma Digit1(data: nat)
    ensures data % 0x10000 == data % 0x100 + 0x100 * (data / 0x100 % 0x100)
  {
    var q := data / 0x100;
    assert data == 0x100 * q + data % 0x100 && q == 0x100 * (q / 0x100) + q % 0x100;
    assert data == 0x10000 * (q / 0x100) + (data % 0x100 + 0x100 * (q % 0x100));
    assert data == 0x10000 * (data / 0x10000) + data % 0x10000;
    assert 0 <= data % 0x100 + 0x100 * (q % 0x100) < 0x10000;
    assert -0x10000 < 0x10000 * (q / 0x100 - data / 0x10000) < 0x10000;
  }

  lemma Digit2(data: nat)
    ensures data % 0x1_000000 == data % 0x1_0000 + 0x1_0000 * (data / 0x1_0000 % 0x100)
  {
    var q := data / 0x1_0000;
    assert data == 0x1_0000 * q + data % 0x1_0000 && q == 0x100 * (q / 0x100) + q % 0x100;
    assert data == 0x1_000000 * (q / 0x100) + (data % 0x1_0000 + 0x1_0000 * (q % 0x100));
    assert data == 0x1_000000 * (data / 0x1_000000) + data % 0x1_000000;
    assert 0 <= data % 0x1_0000 + 0x1_0000 * (q % 0x100) < 0x1_000000;
    assert -0x1_000000 < 0x1_000000 * (q / 0x100 - data / 0x1_000000) < 0x1_000000;
  }

  lemma Digit3(data: nat)
    ensures data % 0x100_000000 == data % 0x100_0000 + 0x100_0000 * (data / 0x100_0000 % 0x100)
  {
    var q := data / 0x100_0000;
    assert data == 0x100_0000 * q + data % 0x100_0000 && q == 0x100 * (q / 0x100) + q % 0x100;
    assert data == 0x100_000000 * (q / 0x100) + (data % 0x100_0000 + 0x100_0000 * (q % 0x100));
    assert data == 0x100_000000 * (data / 0x100_000000) + data % 0x100_000000;
    assert 0 <= data % 0x100_0000 + 0x100_0000 * (q % 0x100) < 0x100_000000;
    assert -0x100_000000 < 0x100_000000 * (q / 0x100 - data / 0x100_000000) < 0x100_000000;
  }

  lemma ByteSuccessor(b: bv8)
    requires b as nat < 0xFF
    ensures (b + 1) as nat == b as nat + 1
  {
    assert b < 0xFF;
  }

  /** The byte of a given value. */
  function ByteOf(n: nat): (b: bv8)
    requires n < 0x100
    ensures b as nat == n
  {
    if n == 0 then 0
    else
      ByteSuccessor(ByteOf(n - 1));
      ByteOf(n - 1) + 1
  }

  class BitArray {
    var bits: array?<bv8>
    var size: nat

    ghost predicate Valid()
      reads `bits, `size
    {
      if bits == null then size == 0 else bits.Length == size
    }

    predicate At(i: nat)
      reads `bits, `size, bits
      requires Valid()
    {
      i / 8 < size && BitOf(bits[i / 8], i % 8)
    }

    /** The set the array stands for. */
    ghost function Members(): (s: set<nat>)
      reads `bits, `size, bits
      requires Valid()
      ensures forall i :: i in s <==> At(i)
    {
      set i: nat | i < 8 * size && At(i)
    }

    constructor ()
      ensures Valid() && Members() == {} && size == 0
    {
      bits, size := null, 0;
    }

    method ClearAll()
      requires Valid()
      modifies bits
      ensures Valid() && Members() == {}
    {
      if bits != null {
        for i := 0 to size
          invariant forall j | 0 <= j < i :: bits[j] == 0
        {
          bits[i] := 0;
        }
      }
    }

    /** Growing keeps the members; shrinking drops exactly those past the new end. */
    method Resize(newSize: nat)
      requires Valid() && (newSize == 0 ==> size == 0)
      modifies this
      ensures Valid() && size == newSize
      ensures Members() == set i | i in old(Members()) && i < 8 * newSize
      ensures bits == old(bits) || fresh(bits)
      ensures newSize == old(size) ==> bits == old(bits)
    {
      if newSize == size {
        return;
      }
      var grown := new bv8[newSize];
      for i := 0 to newSize
        invariant bits == old(bits) && size == old(size)
        invariant forall j | 0 <= j < i :: grown[j] == if j < size then bits[j] else 0
      {
        grown[i] := if i < size then bits[i] else 0;
      }
      bits, size := grown, newSize;
    }

    method Extend(index: nat)
      requires Valid()
      modifies this
      ensures Valid() && size == (if index / 8 + 1 > old(size) then index / 8 + 1 else old(size))
      ensures Members() == old(Members())
      ensures bits == old(bits) || fresh(bits)
    {
      var newSize := index / 8 + 1;
      if newSize > size {
        Resize(newSize);
      }
    }
  
    method Set(index: nat, value: bool)
      requires Valid()
      modifies this, bits
      ensures Valid()
      ensures Members() == if value then old(Members()) + {index} else old(Members()) - {index}
    {
      if !value {
        Clear(index);
        return;
      }
      var byte := index / 8;
      Extend(index);
      ghost var before := Members();
      forall i: nat | i / 8 == byte { OrSets(bits[byte], index % 8, i % 8); }
      bits[byte] := bits[byte] | Mask(index % 8);
      assert Members() == before + {index};
    }

    method Clear(index: nat)
      requires Valid()
      modifies bits
      ensures Valid() && Members() == old(Members()) - {index}
    {
      var byte := index / 8;
      if byte < size {
        forall i: nat | i / 8 == byte { AndClears(bits[byte], index % 8, i % 8); }
        bits[byte] := bits[byte] & !Mask(index % 8);
      }
    }

    method Toggle(index: nat)
      requires Valid()
      modifies this, bits
      ensures Valid()
      ensures Members() == if index in old(Members()) then old(Members()) - {index} else old(Members()) + {index}
    {
      var byte := index / 8;
      Extend(index);
      ghost var before := Members();
      forall i: nat | i / 8 == byte { XorFlips(bits[byte], index % 8, i % 8); }
      bits[byte] := bits[byte] ^ Mask(index % 8);
      assert Members() == if index in before then before - {index} else before + {index};
    }

    method IsSet(index: nat) returns (r: bool)
      requires Valid()
      ensures r <==> index in Members()
    {
      r := index / 8 < size && bits[index / 8] & Mask(index % 8) != 0;
    }

    /** The first n bytes read as a little-endian number. */
    ghost function Number(n: nat): nat
      reads `bits, `size, bits
      requires Valid() && n <= size
    {
      if n == 0 then 0 else Number(n - 1) + Pow2(8 * (n - 1)) * (bits[n - 1] as nat)
    }

    lemma {:induction false} NumberIsSum(n: nat)
      requires Valid() && n <= size
      ensures Number(n) == SumBits(Members(), 8 * n)
    {
      hide Pow2, BitOf, SumBits, At;
      if n == 0 {
        SumBitsNone(Members());
      } else {
        NumberIsSum(n - 1);
        ByteIsAt(n - 1);
        ByteSum(Members(), n - 1, bits[n - 1]);
      }
    }

    lemma ByteIsAt(j: nat)
      requires Valid() && j < size
      ensures forall k | 0 <= k < 8 :: 8 * j + k in Members() <==> BitOf(bits[j], k)
    {
      hide BitOf;
    }

    /** The first four bytes, fewer when there are fewer. */
    method AsInt() returns (value: nat)
      requires Valid()
      ensures value == SumBits(Members(), 32)
    {
      hide Pow2, BitOf, SumBits;
      value := 0;
      var n := if size >= 4 then 4 else size;
      for i := 0 to n
        invariant value == Number(i)
      {
        value := value + Pow2(8 * i) * (bits[i] as nat);
      }
      NumberIsSum(n);
      if n < 4 {
        SumBitsTail(Members(), 8 * n, 32);
      }
    }

    /** Assignment of an integer: refused without a buffer, truncated when the buffer is short, and
        confined to the first four bytes when it is long. */
    method AssignInt(data: nat) returns (done: bool)
      requires Valid() && data < 0x1_0000_0000
      modifies bits
      ensures Valid() && (done <==> bits != null)
      ensures done ==> SumBits(Members(), 32) == data % Pow2(8 * if size >= 4 then 4 else size)
      ensures forall i | 32 <= i :: i in Members() <==> i in old(Members())
    {
      hide Pow2, BitOf, SumBits;
      if bits == null {
        return false;
      }
      var n := if size >= 4 then 4 else size;
      for i := 0 to n
        invariant forall j | 0 <= j < i :: bits[j] == ByteOf(data / Pow2(8 * j) % 0x100)
        invariant forall j | n <= j < size :: bits[j] == old(bits[j])
      {
        bits[i] := ByteOf(data / Pow2(8 * i) % 0x100);
      }
      DigitsMakeNumber(n, data);
      NumberIsSum(n);
      if n < 4 {
        SumBitsTail(Members(), 8 * n, 32);
      }
      done := true;
    }

    lemma {:induction false} DigitsMakeNumber(n: nat, data: nat)
      requires Valid() && n <= size && n <= 4
      requires forall j | 0 <= j < n :: bits[j] == ByteOf(data / Pow2(8 * j) % 0x100)
      ensures Number(n) == data % Pow2(8 * n)
    {
      hide Pow2;
      if n == 0 {
        Places(0);
      } else {
        DigitsMakeNumber(n - 1, data);
        var digit := data / Pow2(8 * (n - 1)) % 0x100;
        NextDigit(data, n - 1);
        assert Number(n) == Number(n - 1) + Pow2(8 * (n - 1)) * digit;
      }
    }

    method Assign(other: BitArray)
      requires Valid() && other.Valid() && (other.size == 0 ==> size == 0)
      requires bits == null || this == other || bits != other.bits
      modifies this, bits
      ensures Valid() && size == other.size && Members() == old(other.Members())
      ensures other.Valid() && other.Members() == old(other.Members())
    {
      Resize(other.size);
      for i := 0 to size
        invariant Valid() && size == other.size && other.bits == old(other.bits)
        invariant bits == null || this == other || bits != other.bits
        invariant bits == old(bits) || fresh(bits)
        invariant forall j | 0 <= j < i :: bits[j] == other.bits[j]
        invariant forall j | 0 <= j < size :: other.bits[j] == old(other.bits[j])
      {
        bits[i] := other.bits[i];
      }
    }
  }
}
