/** Shifts and bitwise or on 64-bit unsigned words, and the base-256 value of a byte string. */
module Words {
  import opened Base

  function Pow2(n: nat): (r: nat)
    ensures r > 0
  {
    if n == 0 then 1 else 2 * Pow2(n - 1)
  }

  function Pow256(n: nat): (r: nat)
    ensures r > 0
  {
    if n == 0 then 1 else 256 * Pow256(n - 1)
  }

  /** `x << n` on `std::size_t`: the bits shifted past bit 63 are lost. */
  function Shl(x: nat, n: nat): nat {
    (x * Pow2(n)) % TWO_64
  }

  /** `x | y`, bit by bit. */
  function Or(x: nat, y: nat): nat {
    if x == 0 && y == 0 then 0
    else 2 * Or(x / 2, y / 2) + (if x % 2 == 1 || y % 2 == 1 then 1 else 0)
  }

  lemma {:induction false} OrZero(x: nat)
    ensures Or(x, 0) == x
  {
    if x > 0 {
      OrZero(x / 2);
    }
  }

  lemma {:induction false} OrCommutes(x: nat, y: nat)
    ensures Or(x, y) == Or(y, x)
  {
    if x > 0 || y > 0 {
      OrCommutes(x / 2, y / 2);
    }
  }

  /** Or-ing values whose set bits do not meet is addition. */
  lemma {:induction false} OrDisjoint(low: nat, high: nat, n: nat)
    requires low < Pow2(n)
    ensures Or(low, high * Pow2(n)) == low + high * Pow2(n)
  {
    if n == 0 {
      OrZero(high);
      OrCommutes(0, high);
    } else {
      var z := high * Pow2(n - 1);
      assert high * Pow2(n) == 2 * z;
      OrDisjoint(low / 2, high, n - 1);
      if low == 0 && z == 0 {
      } else {
        assert Or(low, 2 * z) == 2 * Or(low / 2, z) + (if low % 2 == 1 then 1 else 0);
      }
    }
  }

  lemma SmallPowers()
    ensures Pow2(0) == 1 && Pow2(8) == 0x100 && Pow2(16) == 0x1_0000 && Pow2(24) == 0x100_0000
    ensures Pow256(1) == 0x100 && Pow256(2) == 0x1_0000 && Pow256(3) == 0x100_0000 && Pow256(4) == 0x1_0000_0000
  {
    assert Pow2(4) == 16;
    assert Pow2(8) == 256;
    assert Pow2(12) == 4096;
    assert Pow2(16) == 65536;
    assert Pow2(20) == 0x10_0000;
    assert Pow2(24) == 0x100_0000;
    assert Pow256(2) == 0x1_0000;
    assert Pow256(4) == 0x1_0000_0000;
  }

  function BigEndian(s: bytes): nat {
    if s == [] then 0 else 256 * BigEndian(s[..|s| - 1]) + s[|s| - 1]
  }

  function LittleEndian(s: bytes): nat {
    if s == [] then 0 else s[0] + 256 * LittleEndian(s[1..])
  }

  function Value(s: bytes, little: bool): nat {
    if little then LittleEndian(s) else BigEndian(s)
  }

  /** The `size`-byte representation of `v`. */
  function Digits(v: nat, size: nat, little: bool): (s: bytes)
    ensures |s| == size
  {
    if size == 0 then []
    else if little then [v % 256] + Digits(v / 256, size - 1, little)
    else Digits(v / 256, size - 1, little) + [v % 256]
  }

  lemma {:induction false} ValueBound(s: bytes, little: bool)
    ensures Value(s, little) < Pow256(|s|)
  {
    if s != [] {
      ValueBound(if little then s[1..] else s[..|s| - 1], little);
    }
  }

  lemma {:induction false} ValueOfDigits(v: nat, size: nat, little: bool)
    requires v < Pow256(size)
    ensures Value(Digits(v, size, little), little) == v
  {
    if size > 0 {
      var s, t := Digits(v, size, little), Digits(v / 256, size - 1, little);
      ValueOfDigits(v / 256, size - 1, little);
      assert if little then s[1..] == t else s[..size - 1] == t;
    }
  }

  lemma {:induction false} DigitsOfValue(s: bytes, little: bool)
    ensures Digits(Value(s, little), |s|, little) == s
  {
    if s != [] {
      var n := |s| - 1;
      if little {
        DigitsOfValue(s[1..], little);
        assert LittleEndian(s) / 256 == LittleEndian(s[1..]);
        assert s == [s[0]] + s[1..];
      } else {
        DigitsOfValue(s[..n], little);
        assert BigEndian(s) / 256 == BigEndian(s[..n]);
        assert s == s[..n] + [s[n]];
      }
    }
  }

  lemma ShiftOneByte(b: nat, n: nat)
    requires n > 0
    ensures b * Pow256(n) == 256 * (b * Pow256(n - 1))
  {
    var p := Pow256(n - 1);
    assert Pow256(n) == 256 * p;
    assert b * (256 * p) == 256 * (b * p);
  }

  /** The last byte of a little-endian number carries the highest power. */
  lemma {:induction false} LittleEndianLast(s: bytes)
    requires s != []
    ensures LittleEndian(s) == LittleEndian(s[..|s| - 1]) + s[|s| - 1] * Pow256(|s| - 1)
  {
    var n := |s| - 1;
    if n > 0 {
      var tail, last := s[1..], s[n];
      LittleEndianLast(tail);
      assert tail[..n - 1] == s[..n][1..] && tail[n - 1] == last;
      ShiftOneByte(last, n);
      hide Pow256;
      assert LittleEndian(s) == s[0] + 256 * LittleEndian(tail);
      assert LittleEndian(s[..n]) == s[0] + 256 * LittleEndian(s[..n][1..]);
    } else {
      assert s[..0] == [] && s[1..] == [];
    }
  }

  // ---------- Products and quotients ----------

  function Times(k: nat, n: nat): nat {
    if k == 0 then 0 else n + Times(k - 1, n)
  }

  lemma {:induction false} TimesIsProduct(k: nat, n: nat)
    ensures Times(k, n) == k * n
  {
    if k > 0 {
      TimesIsProduct(k - 1, n);
      assert k * n == (k - 1) * n + n;
    }
  }

  lemma MultipleIsFar(k: int, n: int)
    requires n > 0 && k > 0
    ensures k * n >= n
    ensures (-k) * n == -(k * n)
  {
    var j := k - 1;
    assert j * n >= 0;
    assert (j + 1) * n == j * n + n;
  }

  /** Quotient and remainder are unique. */
  lemma QuotientUnique(a: nat, n: nat, q: nat, r: nat)
    requires r < n && a == q * n + r
    ensures a / n == q && a % n == r
  {
    var k := a / n - q;
    assert a == (a / n) * n + a % n;
    assert k * n == (a / n) * n - q * n;
    if k > 0 {
      MultipleIsFar(k, n);
    } else if k < 0 {
      MultipleIsFar(-k, n);
    }
  }

  // ---------- The two accumulation steps of a length header ----------

  /** `length |= byte << (8 * i)` adds the next digit of a little-endian number. */
  lemma AccumulateLittle(s: bytes, i: nat)
    requires i < |s| && i < 4
    ensures Or(LittleEndian(s[..i]), Shl(s[i], 8 * i)) == LittleEndian(s[..i + 1])
  {
    hide LittleEndian, Or;
    ShiftedByte(s[i], i);
    ValueBound(s[..i], true);
    OrDisjoint(LittleEndian(s[..i]), s[i], 8 * i);
    LittleEndianLast(s[..i + 1]);
    assert s[..i + 1][..i] == s[..i];
  }

  lemma ShiftedByte(b: byte, i: nat)
    requires i < 4
    ensures Pow2(8 * i) == Pow256(i)
    ensures Shl(b, 8 * i) == b * Pow2(8 * i) == b * Pow256(i)
  {
    SmallPowers();
    assert i == 0 || i == 1 || i == 2 || i == 3;
  }

  /** `length = (length << 8) | byte` adds the next digit of a big-endian number. */
  lemma AccumulateBig(s: bytes, i: nat)
    requires i < |s| && i < 4
    ensures Or(Shl(BigEndian(s[..i]), 8), s[i]) == BigEndian(s[..i + 1])
  {
    hide Or;
    ValueBound(s[..i], false);
    AppendByte(BigEndian(s[..i]), s[i]) by {
      SmallPowers();
    }
    assert s[..i + 1][..i] == s[..i];
  }

  lemma AppendByte(high: nat, low: byte)
    requires high < 0x100_0000
    ensures Or(Shl(high, 8), low) == 256 * high + low
  {
    hide Or;
    SmallPowers();
    OrCommutes(high * 256, low);
    OrDisjoint(low, high, 8);
  }

  lemma LittleCons(b: byte, t: bytes)
    ensures LittleEndian([b] + t) == b + 256 * LittleEndian(t)
  {
    assert ([b] + t)[1..] == t;
  }

  lemma BigSnoc(t: bytes, b: byte)
    ensures BigEndian(t + [b]) == 256 * BigEndian(t) + b
  {
    assert (t + [b])[..|t|] == t;
  }

  /** The byte order, spelled out: little means that the first byte counts least. */
  lemma ByteOrder(a: byte, b: byte, c: byte, d: byte)
    ensures Value([a], true) == Value([a], false) == a
    ensures Value([a, b], true) == a + 0x100 * b && Value([a, b], false) == 0x100 * a + b
    ensures Value([a, b, c, d], true) == a + 0x100 * b + 0x1_0000 * c + 0x100_0000 * d
    ensures Value([a, b, c, d], false) == 0x100_0000 * a + 0x1_0000 * b + 0x100 * c + d
  {
    assert LittleEndian([]) == 0 && BigEndian([]) == 0;
    assert [d] == [d] + [] && [c, d] == [c] + [d] && [b, c, d] == [b] + [c, d] && [a, b, c, d] == [a] + [b, c, d];
    assert [a] == [] + [a] && [a] == [a] + [] && [b] == [b] + [] && [a, b] == [a] + [b];
    assert [a, b, c] == [a, b] + [c] && [a, b, c, d] == [a, b, c] + [d];
    hide LittleEndian, BigEndian;
    LittleCons(a, []);
    LittleCons(b, []);
    LittleCons(a, [b]);
    LittleCons(d, []);
    LittleCons(c, [d]);
    LittleCons(b, [c, d]);
    LittleCons(a, [b, c, d]);
    BigSnoc([], a);
    BigSnoc([a], b);
    BigSnoc([a, b], c);
    BigSnoc([a, b, c], d);
  }
}
