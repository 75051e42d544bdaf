/** The UUIDv7 mint: 48 bits of time, a version, a variant and random bits (RFC 9562, section 5.7). */
module Uuidv7 {
  import opened Lexical

  // ── JavaScript's 32-bit operators ─────────────────────────────────────────

  const TWO_32: int := 0x1_0000_0000
  const TWO_48: int := 0x1_0000_0000_0000

  /** `ToInt32`: the low 32 bits as a signed number. */
  function ToInt32(n: int): (r: int)
    ensures -0x8000_0000 <= r < 0x8000_0000 && (r - n) % TWO_32 == 0
  {
    var m := n % TWO_32;
    if m >= 0x8000_0000 then m - TWO_32 else m
  }

  /** The bitwise and of `width` bits of two's-complement numbers. */
  function And(a: int, b: int, width: nat): int
    decreases width
  {
    if width == 0 then 0 else (a % 2) * (b % 2) + 2 * And(a / 2, b / 2, width - 1)
  }

  function Or(a: int, b: int, width: nat): int
    decreases width
  {
    if width == 0 then 0 else (if a % 2 + b % 2 > 0 then 1 else 0) + 2 * Or(a / 2, b / 2, width - 1)
  }

  function Pow2(n: nat): (r: nat)
    ensures r > 0
  {
    if n == 0 then 1 else 2 * Pow2(n - 1)
  }

  lemma {:induction false} AndZero(a: int, width: nat)
    ensures And(a, 0, width) == 0
    decreases width
  {
    if width > 0 {
      AndZero(a / 2, width - 1);
    }
  }

  lemma SmallMultiple(m: int, k: int)
    requires m > 0 && -m < m * k < m
    ensures k == 0
  {
  }

  lemma ModIs(a: int, m: int, q: int, r: int)
    requires m > 0 && a == m * q + r && 0 <= r < m
    ensures a % m == r
  {
    assert a == m * (a / m) + a % m;
    assert m * (q - a / m) == a % m - r;
    SmallMultiple(m, q - a / m);
  }

  /** The remainder by `base * m` is that of the quotient by `base`, and the last digit. */
  lemma DigitMod(a: int, base: nat, m: nat)
    requires base > 0 && m > 0
    ensures base * m > 0 && a % (base * m) == a % base + base * ((a / base) % m)
  {
    var q, d := a / base / m, (a / base) % m;
    assert a / base == m * q + d;
    assert a == base * (m * q + d) + a % base;
    assert base * (m * q + d) == base * m * q + base * d;
    assert base * d <= base * (m - 1);
    ModIs(a, base * m, q, a % base + base * d);
  }

  /** A mask of the low `bits` keeps the remainder. */
  lemma {:induction false} AndLowMask(a: int, bits: nat, width: nat)
    requires bits <= width
    ensures And(a, Pow2(bits) - 1, width) == a % Pow2(bits)
    decreases width
  {
    if bits == 0 {
      AndZero(a, width);
    } else {
      assert (Pow2(bits) - 1) / 2 == Pow2(bits - 1) - 1 && (Pow2(bits) - 1) % 2 == 1;
      AndLowMask(a / 2, bits - 1, width - 1);
      DigitMod(a, 2, Pow2(bits - 1));
    }
  }

  /** Bits above those `a` uses are simply added. */
  lemma {:induction false} OrAbove(a: int, b: nat, bits: nat, width: nat)
    requires 0 <= a < Pow2(bits) && bits <= width && b * Pow2(bits) < Pow2(width)
    ensures Or(a, b * Pow2(bits), width) == a + b * Pow2(bits)
    decreases width
  {
    if bits == 0 {
      assert Pow2(0) == 1 && a == 0 && b * Pow2(0) == b;
      OrZero(b, width);
    } else {
      var high := b * Pow2(bits - 1);
      assert b * Pow2(bits) == 2 * high by { assert Pow2(bits) == 2 * Pow2(bits - 1); }
      assert 2 * high / 2 == high && 2 * high % 2 == 0;
      assert a / 2 < Pow2(bits - 1) && high < Pow2(width - 1);
      OrAbove(a / 2, b, bits - 1, width - 1);
      hide Pow2;
      assert Or(a, 2 * high, width) == a % 2 + 2 * Or(a / 2, high, width - 1);
    }
  }

  lemma {:induction false} OrZero(b: nat, width: nat)
    requires b < Pow2(width)
    ensures Or(0, b, width) == b
  {
    if width > 0 {
      OrZero(b / 2, width - 1);
    }
  }

  // ── The bytes ─────────────────────────────────────────────────────────────

  /** `& 0xff` on a number of any size. */
  function LowByte(n: int): int {
    And(ToInt32(n), 0xff, 32)
  }

  lemma LowByteIs(n: int)
    ensures LowByte(n) == n % 256
  {
    AndLowMask(ToInt32(n), 8, 32);
    assert Pow2(8) == 256;
    var d := ToInt32(n) - n;
    assert d == TWO_32 * (d / TWO_32);
    ModIs(ToInt32(n), 256, n / 256 + 0x100_0000 * (d / TWO_32), n % 256);
  }

  type Byte = n: int | 0 <= n < 256

  /** `r[i] ?? 0`. */
  function Random(r: seq<Byte>, i: nat): Byte {
    if i < |r| then r[i] else 0
  }

  /** `Math.max(0, Math.floor(ms))`. */
  function Clock(ms: real): nat {
    if ms < 0.0 then 0 else ms.Floor
  }

  /** The octets RFC 9562 asks for: big-endian time, version 7, variant binary 10, and the random bits between. */
  ghost predicate IsV7(b: seq<int>, time: nat, r: seq<Byte>) {
    && |b| == 16
    && (forall i :: 0 <= i < 16 ==> 0 <= b[i] < 256)
    && Value(b, 6) == time
    && b[6] / 16 == 7 && b[6] % 16 == Random(r, 0) % 16
    && b[7] == Random(r, 1)
    && b[8] / 64 == 2 && b[8] % 64 == Random(r, 2) % 64
    && forall i :: 9 <= i < 16 ==> b[i] == Random(r, i - 6)
  }

  /** The first `n` octets read as one big-endian number. */
  function Value(b: seq<int>, n: nat): int
    requires n <= |b|
  {
    if n == 0 then 0 else 256 * Value(b, n - 1) + b[n - 1]
  }

  /** The first six octets are the base-256 digits of `t`. */
  predicate HasTime(b: seq<int>, t: nat) {
    && |b| == 16
    && b[0] == t / 0x100_0000_0000 % 256 && b[1] == t / 0x1_0000_0000 % 256 && b[2] == t / 0x100_0000 % 256
    && b[3] == t / 0x1_0000 % 256 && b[4] == t / 0x100 % 256 && b[5] == t % 256
  }

  method WriteTime(t: nat, b: array<int>)
    requires b.Length == 16
    modifies b
    ensures HasTime(b[..], t)
  {
    hide LowByte;
    b[0] := LowByte(t / 0x100_0000_0000);
    b[1] := LowByte(t / 0x1_0000_0000);
    b[2] := LowByte(t / 0x100_0000);
    b[3] := LowByte(t / 0x1_0000);
    b[4] := LowByte(t / 0x100);
    b[5] := LowByte(t);
    TimeOctets(t);
  }

  method WriteRandom(r: seq<Byte>, b: array<int>)
    requires b.Length == 16
    modifies b
    ensures b[..6] == old(b[..6]) && forall k :: 0 <= k < 10 ==> b[6 + k] == Random(r, k)
  {
    for i := 0 to 10
      invariant b[..6] == old(b[..6])
      invariant forall k :: 0 <= k < i ==> b[6 + k] == Random(r, k)
    {
      b[6 + i] := Random(r, i);
    }
  }

  /** Fill the sixteen octets in place. */
  method Fill(ms: real, r: seq<Byte>, b: array<int>)
    requires b.Length == 16
    modifies b
    ensures IsV7(b[..], Clock(ms) % TWO_48, r)
  {
    hide Value, And, Or, Clock, IsV7, HasTime;
    var t := Clock(ms);
    WriteTime(t, b);
    ghost var timed := b[..];
    WriteRandom(r, b);
    assert b[6] == b[6 + 0] && b[8] == b[6 + 2];
    MaskVersion(Random(r, 0));
    MaskVariant(Random(r, 2));
    ghost var drawn := b[..];
    b[6] := Or(And(b[6], 0x0f, 32), 0x70, 32);
    b[8] := Or(And(b[8], 0x3f, 32), 0x80, 32);
    assert b[..] == drawn[6 := Random(r, 0) % 16 + 0x70][8 := Random(r, 2) % 64 + 0x80];
    Assembled(timed, drawn, b[..], t, r);
  }

  lemma Assembled(timed: seq<int>, drawn: seq<int>, b: seq<int>, t: nat, r: seq<Byte>)
    requires HasTime(timed, t) && |drawn| == 16 && drawn[..6] == timed[..6]
    requires forall k :: 0 <= k < 10 ==> drawn[6 + k] == Random(r, k)
    requires b == drawn[6 := Random(r, 0) % 16 + 0x70][8 := Random(r, 2) % 64 + 0x80]
    ensures IsV7(b, t % TWO_48, r)
  {
    hide Value, Random;
    forall i | 0 <= i < 6
      ensures b[i] == timed[i]
    {
      assert drawn[..6][i] == timed[..6][i];
    }
    forall i | 9 <= i < 16
      ensures b[i] == Random(r, i - 6)
    {
      assert drawn[6 + (i - 6)] == Random(r, i - 6);
    }
    assert b[7] == drawn[6 + 1];
    TimeInRange(timed, t);
    forall i | 0 <= i < 16
      ensures 0 <= b[i] < 256
    {
      if i < 6 {
        assert b[i] == timed[i];
      } else if i == 6 {
        assert b[6] == Random(r, 0) % 16 + 0x70;
      } else if i == 7 {
        assert b[7] == Random(r, 1);
      } else if i == 8 {
        assert b[8] == Random(r, 2) % 64 + 0x80;
      } else {
        assert b[i] == Random(r, i - 6);
      }
    }
    hide HasTime;
    MarkedOctet(Random(r, 0), 16, 7);
    MarkedOctet(Random(r, 2), 64, 2);
    SixOctets(b, t);
  }

  lemma TimeInRange(b: seq<int>, t: nat)
    requires HasTime(b, t)
    ensures forall i :: 0 <= i < 6 ==> 0 <= b[i] < 256
  {
  }

  lemma MarkedOctet(x: Byte, unit: nat, mark: nat)
    requires unit in {16, 64}
    ensures (x % unit + mark * unit) / unit == mark && (x % unit + mark * unit) % unit == x % unit
  {
  }

  lemma MaskVersion(x: Byte)
    ensures Or(And(x, 0x0f, 32), 0x70, 32) == x % 16 + 0x70
  {
    hide And, Or;
    assert Pow2(4) == 16 && Pow2(32) == TWO_32 by { Powers(); }
    AndLowMask(x, 4, 32);
    OrAbove(x % 16, 7, 4, 32);
  }

  lemma MaskVariant(x: Byte)
    ensures Or(And(x, 0x3f, 32), 0x80, 32) == x % 64 + 0x80
  {
    hide And, Or;
    assert Pow2(6) == 64 && Pow2(32) == TWO_32 by { Powers(); }
    AndLowMask(x, 6, 32);
    OrAbove(x % 64, 2, 6, 32);
  }

  lemma Powers()
    ensures Pow2(4) == 16 && Pow2(6) == 64 && Pow2(32) == TWO_32
  {
    assert Pow2(8) == 256;
    assert Pow2(16) == 65536;
    assert Pow2(24) == 0x100_0000;
  }

  /** The octets written for `t`: its base-256 digits. */
  lemma TimeOctets(t: nat)
    ensures LowByte(t / 0x100_0000_0000) == t / 0x100_0000_0000 % 256
    ensures LowByte(t / 0x1_0000_0000) == t / 0x1_0000_0000 % 256
    ensures LowByte(t / 0x100_0000) == t / 0x100_0000 % 256
    ensures LowByte(t / 0x1_0000) == t / 0x1_0000 % 256
    ensures LowByte(t / 0x100) == t / 0x100 % 256
    ensures LowByte(t) == t % 256
  {
    hide LowByte;
    LowByteIs(t / 0x100_0000_0000);
    LowByteIs(t / 0x1_0000_0000);
    LowByteIs(t / 0x100_0000);
    LowByteIs(t / 0x1_0000);
    LowByteIs(t / 0x100);
    LowByteIs(t);
  }

  lemma Quotients(t: nat)
    ensures t / 0x100 / 256 == t / 0x1_0000 && t / 0x1_0000 / 256 == t / 0x100_0000
    ensures t / 0x100_0000 / 256 == t / 0x1_0000_0000 && t / 0x1_0000_0000 / 256 == t / 0x100_0000_0000
  {
  }

  lemma SixOctets(b: seq<int>, t: nat)
    requires HasTime(b, t)
    ensures Value(b, 6) == t % TWO_48
  {
    Quotients(t);
    assert Value(b, 1) == b[0];
    DigitMod(t / 0x1_0000_0000, 256, 0x100);
    assert Value(b, 2) == t / 0x1_0000_0000 % 0x1_0000;
    DigitMod(t / 0x100_0000, 256, 0x1_0000);
    assert Value(b, 3) == t / 0x100_0000 % 0x100_0000;
    DigitMod(t / 0x1_0000, 256, 0x100_0000);
    assert Value(b, 4) == t / 0x1_0000 % 0x1_0000_0000;
    DigitMod(t / 0x100, 256, 0x1_0000_0000);
    assert Value(b, 5) == t / 0x100 % 0x100_0000_0000;
    DigitMod(t, 256, 0x100_0000_0000);
  }

  // ── The text ──────────────────────────────────────────────────────────────

  function HexDigit(d: int): char
    requires 0 <= d < 16
  {
    if d < 10 then '0' + d as char else 'a' + (d - 10) as char
  }

  function Hex(b: seq<int>): (s: string)
    requires forall i :: 0 <= i < |b| ==> 0 <= b[i] < 256
    ensures |s| == 2 * |b|
    ensures forall i :: 0 <= i < |b| ==> s[2 * i] == HexDigit(b[i] / 16) && s[2 * i + 1] == HexDigit(b[i] % 16)
  {
    if b == [] then ""
    else
      var front := b[..|b| - 1];
      var last := b[|b| - 1];
      Hex(front) + [HexDigit(last / 16), HexDigit(last % 16)]
  }

  /** Eight, four, four, four and twelve digits. */
  function Shown(b: seq<int>): (s: string)
    requires |b| == 16 && forall i :: 0 <= i < 16 ==> 0 <= b[i] < 256
    ensures |s| == 36
  {
    var hex := Hex(b);
    hex[..8] + "-" + hex[8..12] + "-" + hex[12..16] + "-" + hex[16..20] + "-" + hex[20..]
  }

  method Mint(ms: real, r: seq<Byte>) returns (id: string, ghost b: seq<int>)
    ensures IsV7(b, Clock(ms) % TWO_48, r) && id == Shown(b)
  {
    var octets := new int[16];
    Fill(ms, r, octets);
    b := octets[..];
    id := Shown(octets[..]);
  }

  lemma HexDigitsOrdered(a: int, b: int)
    requires 0 <= a < 16 && 0 <= b < 16
    ensures a < b <==> HexDigit(a) < HexDigit(b)
  {
  }

  /** Where octet `i` of the time stands in the text. */
  function Place(i: nat): nat {
    if i < 4 then 2 * i else 2 * i + 1
  }

  lemma ShownAt(b: seq<int>, i: nat)
    requires |b| == 16 && forall k :: 0 <= k < 16 ==> 0 <= b[k] < 256
    requires i < 6
    ensures Shown(b)[Place(i)] == HexDigit(b[i] / 16) && Shown(b)[Place(i) + 1] == HexDigit(b[i] % 16)
    ensures Shown(b)[8] == '-'
  {
  }

  function DigitValue(c: char): int {
    if '0' <= c <= '9' then (c - '0') as int else if 'a' <= c <= 'f' then (c - 'a') as int + 10 else 0
  }

  /** The first `n` octets of an id's time, read from its text. */
  function TimeOf(id: string, n: nat): int
    requires |id| == 36 && n <= 6
  {
    if n == 0 then 0
    else 256 * TimeOf(id, n - 1) + 16 * DigitValue(id[Place(n - 1)]) + DigitValue(id[Place(n - 1) + 1])
  }

  lemma DigitValueOfHex(d: int)
    requires 0 <= d < 16
    ensures DigitValue(HexDigit(d)) == d
  {
  }

  lemma {:induction false} TimeOfShown(b: seq<int>, n: nat)
    requires |b| == 16 && forall k :: 0 <= k < 16 ==> 0 <= b[k] < 256
    requires n <= 6
    ensures TimeOf(Shown(b), n) == Value(b, n)
  {
    hide Shown, DigitValue, HexDigit;
    if n > 0 {
      TimeOfShown(b, n - 1);
      ShownAt(b, n - 1);
      DigitValueOfHex(b[n - 1] / 16);
      DigitValueOfHex(b[n - 1] % 16);
    }
  }

  /** The text of a minted id tells the time it was minted for exactly when that fits in 48 bits. */
  lemma TimeComesBackIff(ms: real, r: seq<Byte>, b: seq<int>)
    requires IsV7(b, Clock(ms) % TWO_48, r)
    ensures TimeOf(Shown(b), 6) == Clock(ms) <==> Clock(ms) < TWO_48
  {
    hide Shown, TimeOf, Clock;
    TimeOfShown(b, 6);
  }

  lemma {:induction false} LessAt(s: string, t: string, k: nat)
    requires k < |s| && k < |t| && s[k] < t[k] && forall j :: 0 <= j < k ==> s[j] == t[j]
    ensures Less(s, t)
  {
    if k > 0 {
      LessAt(s[1..], t[1..], k - 1);
    }
  }

  /** Of two numbers written in as many octets, the smaller has the smaller octet where they first differ. */
  lemma {:induction false} FirstDifference(a: seq<int>, b: seq<int>, n: nat) returns (i: nat)
    requires n <= |a| && n <= |b|
    requires forall k :: 0 <= k < n ==> 0 <= a[k] < 256 && 0 <= b[k] < 256
    requires Value(a, n) < Value(b, n)
    ensures i < n && a[i] < b[i] && forall k :: 0 <= k < i ==> a[k] == b[k]
  {
    if Value(a, n - 1) < Value(b, n - 1) {
      i := FirstDifference(a, b, n - 1);
    } else {
      SameOctets(a, b, n - 1);
      i := n - 1;
    }
  }

  lemma {:induction false} SameOctets(a: seq<int>, b: seq<int>, n: nat)
    requires n <= |a| && n <= |b|
    requires forall k :: 0 <= k < n ==> 0 <= a[k] < 256 && 0 <= b[k] < 256
    requires Value(a, n) == Value(b, n)
    ensures forall k :: 0 <= k < n ==> a[k] == b[k]
  {
    if n > 0 {
      SameOctets(a, b, n - 1);
    }
  }

  /** Ids of different times sort, as text, in the order of their times, whatever their random bits. */
  lemma TextOrderIsTimeOrder(a: seq<int>, b: seq<int>, s: nat, t: nat, r: seq<Byte>, q: seq<Byte>)
    requires IsV7(a, s, r) && IsV7(b, t, q) && s < t
    ensures Less(Shown(a), Shown(b))
  {
    hide Shown;
    var i := FirstDifference(a, b, 6);
    forall k: nat | k < 6
      ensures Shown(a)[Place(k)] == HexDigit(a[k] / 16) && Shown(a)[Place(k) + 1] == HexDigit(a[k] % 16)
      ensures Shown(b)[Place(k)] == HexDigit(b[k] / 16) && Shown(b)[Place(k) + 1] == HexDigit(b[k] % 16)
      ensures Shown(a)[8] == '-' && Shown(b)[8] == '-'
    {
      ShownAt(a, k);
      ShownAt(b, k);
    }
    SameBefore(a, b, i);
    var p := Place(i);
    if a[i] / 16 < b[i] / 16 {
      HexDigitsOrdered(a[i] / 16, b[i] / 16);
      LessAt(Shown(a), Shown(b), p);
    } else {
      HexDigitsOrdered(a[i] % 16, b[i] % 16);
      LessAt(Shown(a), Shown(b), p + 1);
    }
  }

  lemma SameBefore(a: seq<int>, b: seq<int>, i: nat)
    requires |a| == 16 && |b| == 16 && i < 6
    requires forall k :: 0 <= k < 16 ==> 0 <= a[k] < 256 && 0 <= b[k] < 256
    requires forall k :: 0 <= k < i ==> a[k] == b[k]
    ensures forall j :: 0 <= j < Place(i) ==> Shown(a)[j] == Shown(b)[j]
  {
    forall j | 0 <= j < Place(i)
      ensures Shown(a)[j] == Shown(b)[j]
    {
      var k := if j < 8 then j / 2 else (j - 1) / 2;
      if j != 8 {
        ShownAt(a, k);
        ShownAt(b, k);
        assert j == Place(k) || j == Place(k) + 1;
      } else {
        ShownAt(a, 0);
        ShownAt(b, 0);
      }
    }
  }
}
