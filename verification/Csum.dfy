/** The Internet checksum (lib/csum.c, lib/csum.h), as RFC 1071 defines it and RFC 1624
    updates it.  16-bit quantities are read from memory in the byte order of the host;
    `big` says whether that is big-endian. */
module Csum {

  const TWO_16: nat := 0x1_0000
  const TWO_32: nat := 0x1_0000_0000
  const ONES: nat := 0xFFFF

  type Byte = b: int | 0 <= b < 256
  type U16 = x: int | 0 <= x < 0x1_0000
  type U32 = x: int | 0 <= x < 0x1_0000_0000

  function Word(big: bool, b0: Byte, b1: Byte): U16 {
    if big then 256 * b0 + b1 else b0 + 256 * b1
  }

  /** The words of some data, added up without a limit; a last odd byte is followed by 0. */
  function Sum(big: bool, data: seq<Byte>): (n: nat)
    ensures n <= (|data| + 1) / 2 * ONES
  {
    if |data| == 0 then 0
    else if |data| == 1 then Word(big, data[0], 0)
    else Word(big, data[0], data[1]) + Sum(big, data[2..])
  }

  // Ones-complement sums

  /** Carries out of 16 bits are added back in. */
  function Fold(x: nat): (r: nat)
    ensures r <= ONES && (r == 0 <==> x == 0) && r % ONES == x % ONES
  {
    if x < TWO_16 then x
    else
      CarryCongruent(x);
      Fold(x / TWO_16 + x % TWO_16)
  }

  /** Adding the carries back in keeps the sum modulo 2^16 - 1. */
  lemma CarryCongruent(x: nat)
    requires x >= TWO_16
    ensures (x / TWO_16 + x % TWO_16) % ONES == x % ONES && 0 < x / TWO_16 + x % TWO_16 < x
  {
    var high, low := x / TWO_16, x % TWO_16;
    assert x == high + low + ONES * high;
    AddMultiple(high + low, high);
  }

  /** A ones-complement sum is determined by the sum modulo 2^16 - 1, and by whether it is 0. */
  lemma FoldUnique(x: nat, y: nat)
    requires x % ONES == y % ONES && (x == 0 <==> y == 0)
    ensures Fold(x) == Fold(y)
  {
  }

  function Complement(x: U16): U16 {
    ONES - x
  }

  function Finished(partial: nat): U16 {
    Complement(Fold(partial))
  }

  /** The checksum of RFC 1071. */
  function Checksum(big: bool, data: seq<Byte>): U16 {
    Finished(Sum(big, data))
  }

  // The code

  function Add16(partial: U32, x: U16): U32 {
    (partial + x) % TWO_32
  }

  function Add32(partial: U32, x: U32): U32 {
    (partial + x / TWO_16 + x % TWO_16) % TWO_32
  }

  /** csum_add32 adds the two halves. */
  lemma Add32IsTwoAdd16(partial: U32, x: U32)
    ensures Add32(partial, x) == Add16(Add16(partial, x / TWO_16), x % TWO_16)
  {
  }

  /** What csum_continue adds: the last odd byte goes into the low half of a word. */
  function RawSum(big: bool, data: seq<Byte>): nat {
    if |data| == 0 then 0
    else if |data| == 1 then data[0]
    else Word(big, data[0], data[1]) + RawSum(big, data[2..])
  }

  /** csum_continue. */
  method Continue(big: bool, partial: U32, data: seq<Byte>) returns (r: U32)
    ensures r == (partial + RawSum(big, data)) % TWO_32
  {
    r := partial;
    var i := 0;
    while i + 1 < |data|
      invariant i <= |data|
      invariant (r + RawSum(big, data[i..])) % TWO_32 == (partial + RawSum(big, data)) % TWO_32
    {
      assert data[i..][0] == data[i] && data[i..][1] == data[i + 1] && data[i..][2..] == data[i + 2..];
      Carry(r + Word(big, data[i], data[i + 1]), RawSum(big, data[i + 2..]));
      r := Add16(r, Word(big, data[i], data[i + 1]));
      i := i + 2;
    }
    if i < |data| {
      r := (r + data[i]) % TWO_32;
    }
  }

  lemma Carry(a: nat, b: nat)
    ensures (a % TWO_32 + b) % TWO_32 == (a + b) % TWO_32
  {
  }

  /** csum_finish. */
  method Finish(start: U32) returns (r: U16)
    ensures r == Finished(start)
  {
    var partial: nat := start;
    while partial / TWO_16 != 0
      invariant Fold(partial) == Fold(start)
      decreases partial
    {
      partial := partial % TWO_16 + partial / TWO_16;
    }
    r := Complement(partial);
  }

  /** csum. */
  method Compute(big: bool, data: seq<Byte>) returns (r: U16)
    ensures r == Finished(RawSum(big, data) % TWO_32)
    ensures |data| <= MAX_BYTES && (!big || |data| % 2 == 0 || LastByte(data) == 0) ==> r == Checksum(big, data)
    ensures r == Checksum(big, data) <==>
      && (RawSum(big, data) / TWO_32 + OddShortfall(big, data)) % ONES == 0
      && (RawSum(big, data) % TWO_32 == 0 ==> RawSum(big, data) == 0)
  {
    hide Sum, RawSum, Fold, Finished, LastByte, OddShortfall;
    var partial := Continue(big, 0, data);
    r := Finish(partial);
    RightExactly(big, data);
    if |data| <= MAX_BYTES {
      OddByteExact(big, data);
    }
  }

  // How much data a 32-bit sum has room for

  const MAX_BYTES: nat := 131074

  lemma NoOverflow(big: bool, data: seq<Byte>)
    requires |data| <= MAX_BYTES
    ensures Sum(big, data) < TWO_32
  {
  }

  lemma {:induction false} AllOnesSum(big: bool, n: nat)
    ensures Sum(big, seq(2 * n, i => 255)) == n * ONES
  {
    var data: seq<Byte> := seq(2 * n, i => 255);
    if n > 0 {
      assert data[2..] == seq(2 * (n - 1), i => 255);
      AllOnesSum(big, n - 1);
    }
  }

  // The last odd byte

  function LastByte(data: seq<Byte>): nat
    requires |data| > 0
  {
    data[|data| - 1]
  }

  lemma {:induction false} RawIsSum(big: bool, data: seq<Byte>)
    ensures !big || |data| % 2 == 0 ==> RawSum(big, data) == Sum(big, data)
    ensures big && |data| % 2 == 1 ==> Sum(big, data) == RawSum(big, data) + 255 * LastByte(data)
  {
    if |data| > 1 {
      RawIsSum(big, data[2..]);
    }
  }

  /** The code computes the checksum exactly if the host is little-endian, or the length is
      even, or the last byte is zero. */
  lemma OddByteExact(big: bool, data: seq<Byte>)
    requires |data| <= MAX_BYTES
    ensures Right(big, data) <==> !big || |data| % 2 == 0 || LastByte(data) == 0
  {
    hide Sum, RawSum, Fold, Finished;
    NoOverflow(big, data);
    RawIsSum(big, data);
    assert RawSum(big, data) <= Sum(big, data) < TWO_32;
    SmallMod(RawSum(big, data));
    if big && |data| % 2 == 1 && LastByte(data) != 0 {
      assert LastByte(data) < 256;
      LastByteCounts(RawSum(big, data), LastByte(data));
      FinishedDiffer(RawSum(big, data), Sum(big, data));
    }
  }

  lemma SmallMod(x: nat)
    requires x < TWO_32
    ensures x % TWO_32 == x
  {
  }

  lemma FinishedDiffer(x: nat, y: nat)
    requires x % ONES != y % ONES
    ensures Finished(x) != Finished(y)
  {
  }

  lemma LastByteCounts(raw: nat, last: nat)
    requires 0 < last < 256
    ensures (raw + 255 * last) % ONES != raw % ONES
  {
    var q, q' := raw / ONES, (raw + 255 * last) / ONES;
    assert raw == ONES * q + raw % ONES;
    assert raw + 255 * last == ONES * q' + (raw + 255 * last) % ONES;
  }

  // When the code is right

  /** What the code computes is the checksum. */
  predicate Right(big: bool, data: seq<Byte>) {
    Finished(RawSum(big, data) % TWO_32) == Checksum(big, data)
  }

  /** What the sum of the code falls short by because of the last odd byte. */
  function OddShortfall(big: bool, data: seq<Byte>): (n: nat)
    ensures n < ONES
  {
    if big && |data| % 2 == 1 then 255 * LastByte(data) else 0
  }

  lemma SumParts(big: bool, data: seq<Byte>)
    ensures Sum(big, data) == RawSum(big, data) % TWO_32 + OddShortfall(big, data) + TWO_32 * (RawSum(big, data) / TWO_32)
  {
    RawIsSum(big, data);
  }

  /** Each wrap of the 32-bit sum takes 1 from the sum modulo 2^16 - 1. */
  lemma WrapsCount(x: nat, d: nat)
    ensures (x + TWO_32 * d) % ONES == (x + d) % ONES
  {
    assert x + TWO_32 * d == (x + d) + ONES * (65537 * d);
    AddMultiple(x + d, 65537 * d);
  }

  lemma SameResidue(x: nat, d: nat)
    ensures (x + d) % ONES == x % ONES <==> d % ONES == 0
  {
  }

  lemma FinishedSame(x: nat, y: nat)
    ensures Finished(x) == Finished(y) <==> x % ONES == y % ONES && (x == 0 <==> y == 0)
  {
    if x % ONES == y % ONES && (x == 0 <==> y == 0) {
      FoldUnique(x, y);
    }
  }

  /** For any data: the wraps and the last odd byte together must make up a multiple of
      2^16 - 1, and a sum that is not zero must not wrap to zero. */
  lemma RightExactly(big: bool, data: seq<Byte>)
    ensures Right(big, data) <==>
      && (RawSum(big, data) / TWO_32 + OddShortfall(big, data)) % ONES == 0
      && (RawSum(big, data) % TWO_32 == 0 ==> RawSum(big, data) == 0)
  {
    hide Sum, RawSum, Fold, Finished, OddShortfall;
    var raw, short := RawSum(big, data), OddShortfall(big, data);
    var x, wraps := raw % TWO_32, raw / TWO_32;
    SumParts(big, data);
    WrapsCount(x + short, wraps);
    SameResidue(x, short + wraps);
    FinishedSame(x, Sum(big, data));
    ShortfallAlone(short, wraps);
  }

  lemma ShortfallAlone(short: nat, wraps: nat)
    requires short < ONES
    ensures wraps == 0 && (wraps + short) % ONES == 0 ==> short == 0
  {
  }

  lemma {:induction false} ZerosSum(big: bool, n: nat)
    ensures Sum(big, seq(n, i => 0)) == 0
  {
    var data: seq<Byte> := seq(n, i => 0);
    if n > 1 {
      assert data[2..] == seq(n - 2, i => 0);
      ZerosSum(big, n - 2);
    }
  }

  /** Data of a length that is too much: bytes of all ones, then zeros. */
  lemma TooLong(big: bool, n: nat) returns (data: seq<Byte>)
    requires n > MAX_BYTES && (!big || n % 2 == 0)
    ensures |data| == n && !Right(big, data)
  {
    var ones: seq<Byte>, rest: seq<Byte>;
    if n == MAX_BYTES + 1 {
      ones, rest := seq(MAX_BYTES, i => 255), [255];
      AllOnesSum(big, 65537);
    } else {
      ones, rest := seq(MAX_BYTES + 2, i => 255), seq(n - MAX_BYTES - 2, i => 0);
      AllOnesSum(big, 65538);
      ZerosSum(big, |rest|);
    }
    data := ones + rest;
    SumInPieces(big, ones, rest);
    RawIsSum(big, data);
    RightExactly(big, data);
    assert TWO_32 <= RawSum(big, data) < 2 * TWO_32;
  }

  lemma OddByteLost(n: nat) returns (data: seq<Byte>)
    requires n % 2 == 1
    ensures |data| == n && !Right(true, data)
  {
    var zeros: seq<Byte> := seq(n - 1, i => 0);
    data := zeros + [1];
    SumInPieces(true, zeros, [1]);
    ZerosSum(true, n - 1);
    RawIsSum(true, data);
    RightExactly(true, data);
  }

  /** The lengths for which the code is right whatever the data. */
  lemma LengthExact(big: bool, n: nat)
    ensures (forall data: seq<Byte> :: |data| == n ==> Right(big, data)) <==> n <= MAX_BYTES && (!big || n % 2 == 0)
  {
    if big && n % 2 == 1 {
      var data := OddByteLost(n);
    } else if n > MAX_BYTES {
      var data := TooLong(big, n);
    } else {
      forall data: seq<Byte> | |data| == n ensures Right(big, data) {
        OddByteExact(big, data);
      }
    }
  }

  // Checksums in packets

  lemma SumWithChecksum(sum: nat)
    ensures Finished(sum + Finished(sum)) == 0
  {
    FoldUnique(sum + Finished(sum), ONES);
  }

  /** Data in pieces of even length may be added up piece by piece. */
  lemma {:induction false} SumInPieces(big: bool, a: seq<Byte>, b: seq<Byte>)
    requires |a| % 2 == 0
    ensures Sum(big, a + b) == Sum(big, a) + Sum(big, b)
  {
    if |a| == 0 {
      assert a + b == b;
    } else {
      assert (a + b)[2..] == a[2..] + b;
      SumInPieces(big, a[2..], b);
    }
  }

  // Byte order

  function Swapped(x: U16): U16 {
    x % 256 * 256 + x / 256
  }

  lemma {:induction false} SumSwaps(data: seq<Byte>)
    ensures Sum(true, data) % ONES == 256 * Sum(false, data) % ONES
    ensures Sum(true, data) == 0 <==> Sum(false, data) == 0
  {
    if |data| > 1 {
      SumSwaps(data[2..]);
      WordSwaps(data[0], data[1]);
      SwapStep(Sum(true, data[2..]), Sum(false, data[2..]), Word(true, data[0], data[1]), Word(false, data[0], data[1]),
               data[1]);
    }
  }

  lemma WordSwaps(b0: Byte, b1: Byte)
    ensures var big: nat, little: nat, b: nat := Word(true, b0, b1), Word(false, b0, b1), b1; 256 * little == big + ONES * b
  {
  }

  lemma SwapStep(restBig: nat, restLittle: nat, big: nat, little: nat, b: nat)
    requires restBig % ONES == 256 * restLittle % ONES && 256 * little == big + ONES * b
    ensures (big + restBig) % ONES == 256 * (little + restLittle) % ONES
  {
    assert 256 * (little + restLittle) == big + 256 * restLittle + ONES * b;
    AddMultiple(big + 256 * restLittle, b);
    AddMod(big, restBig, 256 * restLittle);
  }

  lemma AddMod(x: nat, y: nat, z: nat)
    requires y % ONES == z % ONES
    ensures (x + y) % ONES == (x + z) % ONES
  {
  }

  lemma AddMultiple(x: nat, b: nat)
    ensures (x + ONES * b) % ONES == x % ONES
  {
  }

  lemma SwappedParts(h: Byte, l: Byte)
    ensures var h': nat, l': nat := h, l; Swapped(256 * h' + l') == 256 * l' + h'
  {
    var h': nat, l': nat := h, l;
    assert (256 * h' + l') % 256 == l' && (256 * h' + l') / 256 == h';
  }

  lemma SwappedFacts(x: U16)
    ensures var y: nat := x; Swapped(x) % ONES == 256 * y % ONES
    ensures Swapped(x) == 0 <==> x == 0
    ensures Swapped(Complement(x)) == Complement(Swapped(x))
  {
    var h: nat, l: nat := x / 256, x % 256;
    SwappedParts(h, l);
    SwappedParts(255 - h, 255 - l);
    hide Swapped;
    assert x == 256 * h + l && Complement(x) == 256 * (255 - h) + (255 - l);
    assert 256 * (256 * h + l) == (256 * l + h) + ONES * h;
    AddMultiple(256 * l + h, h);
  }

  /** Ones-complement sums do not depend on the byte order: computed on either host, the
      checksum has the same bytes in memory (section 2 of RFC 1071). */
  lemma ByteOrderIndependent(data: seq<Byte>)
    ensures Checksum(true, data) == Swapped(Checksum(false, data))
  {
    hide Sum, Swapped;
    SumSwaps(data);
    var little := Fold(Sum(false, data));
    SwappedFacts(little);
    MulMod(little, Sum(false, data));
    FoldUnique(Sum(true, data), Swapped(little));
    Folded(Swapped(little));
  }

  lemma Folded(x: U16)
    ensures Fold(x) == x
  {
  }

  lemma MulMod(a: nat, b: nat)
    requires a % ONES == b % ONES
    ensures 256 * a % ONES == 256 * b % ONES
  {
    assert 256 * a == 256 * (a % ONES) + ONES * (256 * (a / ONES));
    assert 256 * b == 256 * (b % ONES) + ONES * (256 * (b / ONES));
    AddMultiple(256 * (a % ONES), 256 * (a / ONES));
    AddMultiple(256 * (b % ONES), 256 * (b / ONES));
  }

  // Updating a checksum

  /** recalc_csum16. */
  function Recalc16(hc: U16, m: U16, m': U16): U16 {
    Finished(Complement(hc) + Complement(m) + m')
  }

  /** recalc_csum32. */
  function Recalc32(hc: U16, m: U32, m': U32): U16 {
    Recalc16(Recalc16(hc, m % TWO_16, m' % TWO_16), m / TWO_16, m' / TWO_16)
  }

  /** `hc` stands for data with sum `sum`, except perhaps that a sum of 0 has become 2^16 - 1. */
  predicate StandsFor(hc: U16, sum: nat) {
    Complement(hc) % ONES == sum % ONES && (Complement(hc) == 0 ==> sum == 0)
  }

  lemma FinishedStandsFor(sum: nat)
    ensures StandsFor(Finished(sum), sum)
  {
  }

  lemma StandsForExact(hc: U16, sum: nat)
    requires StandsFor(hc, sum) && Complement(hc) > 0
    ensures hc == Finished(sum) <==> sum != 0
  {
  }

  /** One word of the data changes from m to m'. */
  lemma Recalc16Step(hc: U16, m: U16, m': U16, rest: nat)
    requires StandsFor(hc, rest + m)
    ensures StandsFor(Recalc16(hc, m, m'), rest + m') && Complement(Recalc16(hc, m, m')) > 0
  {
    var sum := Complement(hc) + Complement(m) + m';
    assert sum > 0;
    assert sum % ONES == (rest + m') % ONES by {
      Recalc16Congruent(Complement(hc), m, m', rest);
    }
  }

  lemma Recalc16Congruent(c: nat, m: U16, m': U16, rest: nat)
    requires c % ONES == (rest + m) % ONES
    ensures (c + (ONES - m) + m') % ONES == (rest + m') % ONES
  {
    var q, q' := c / ONES, (rest + m) / ONES;
    assert c == ONES * q + c % ONES && rest + m == ONES * q' + c % ONES;
    assert c + (ONES - m) + m' + ONES * q' == rest + m' + ONES * (q + 1);
    AddMultiple(c + (ONES - m) + m', q');
    AddMultiple(rest + m', q + 1);
  }

  lemma Recalc16Exactly(m: U16, m': U16, rest: nat)
    ensures Recalc16(Finished(rest + m), m, m') == Finished(rest + m') <==> rest + m' != 0
  {
    FinishedStandsFor(rest + m);
    Recalc16Step(Finished(rest + m), m, m', rest);
    StandsForExact(Recalc16(Finished(rest + m), m, m'), rest + m');
  }

  // Fields of the data

  predicate AllZero(data: seq<Byte>) {
    forall i :: 0 <= i < |data| ==> data[i] == 0
  }

  lemma {:induction false} SumIsZero(big: bool, data: seq<Byte>)
    ensures Sum(big, data) == 0 <==> AllZero(data)
  {
    if |data| > 1 {
      SumIsZero(big, data[2..]);
      assert data == data[..2] + data[2..];
    }
  }

  /** The data with the bytes from `ofs` on replaced by a new field. */
  function Replaced(data: seq<Byte>, ofs: nat, field: seq<Byte>): (r: seq<Byte>)
    requires ofs + |field| <= |data|
    ensures |r| == |data|
  {
    data[..ofs] + field + data[ofs + |field|..]
  }

  /** The sum of everything but a field. */
  function Around(big: bool, data: seq<Byte>, ofs: nat, n: nat): nat
    requires ofs + n <= |data|
  {
    Sum(big, data[..ofs]) + Sum(big, data[ofs + n..])
  }

  lemma SumAround(big: bool, data: seq<Byte>, ofs: nat, field: seq<Byte>)
    requires ofs % 2 == 0 && |field| % 2 == 0 && ofs + |field| <= |data|
    ensures Sum(big, Replaced(data, ofs, field)) == Around(big, data, ofs, |field|) + Sum(big, field)
  {
    hide Sum;
    SumInPieces(big, data[..ofs] + field, data[ofs + |field|..]);
    SumInPieces(big, data[..ofs], field);
  }

  lemma SumWhole(big: bool, data: seq<Byte>, ofs: nat, n: nat)
    requires ofs % 2 == 0 && n % 2 == 0 && ofs + n <= |data|
    ensures Sum(big, data) == Around(big, data, ofs, n) + Sum(big, data[ofs..ofs + n])
  {
    SumAround(big, data, ofs, data[ofs..ofs + n]);
    assert Replaced(data, ofs, data[ofs..ofs + n]) == data;
  }

  function Read16(big: bool, field: seq<Byte>): U16
    requires |field| == 2
  {
    Word(big, field[0], field[1])
  }

  function Read32(big: bool, field: seq<Byte>): U32
    requires |field| == 4
  {
    var first, second := Word(big, field[0], field[1]), Word(big, field[2], field[3]);
    if big then first * TWO_16 + second else first + second * TWO_16
  }

  function Halves(x: U32): nat {
    x % TWO_16 + x / TWO_16
  }

  lemma ReadSum(big: bool, field: seq<Byte>)
    ensures |field| == 2 ==> Sum(big, field) == Read16(big, field)
    ensures |field| == 4 ==> Sum(big, field) == Halves(Read32(big, field))
  {
    if |field| == 4 {
      assert Sum(big, field[2..]) == Word(big, field[2], field[3]);
      HalvesOf(Word(big, field[0], field[1]), Word(big, field[2], field[3]));
    }
  }

  lemma HalvesOf(x: U16, y: U16)
    ensures var x': nat, y': nat := x, y; Halves(x' * TWO_16 + y') == x' + y' == Halves(x' + y' * TWO_16)
  {
    var x': nat, y': nat := x, y;
    assert (x' * TWO_16 + y') % TWO_16 == y' && (x' * TWO_16 + y') / TWO_16 == x';
    assert (x' + y' * TWO_16) % TWO_16 == x' && (x' + y' * TWO_16) / TWO_16 == y';
  }

  /** Updating the checksum for a 16-bit field that changes gives what computing it anew would
      give, exactly unless the new data is all zeros. */
  lemma Recalc16Exact(big: bool, data: seq<Byte>, ofs: nat, field: seq<Byte>)
    requires ofs % 2 == 0 && |field| == 2 && ofs + 2 <= |data|
    ensures var data' := Replaced(data, ofs, field);
      var hc' := Recalc16(Checksum(big, data), Read16(big, data[ofs..ofs + 2]), Read16(big, field));
      hc' == Checksum(big, data') <==> !AllZero(data')
  {
    hide Sum, Finished, Recalc16;
    SumWhole(big, data, ofs, 2);
    SumAround(big, data, ofs, field);
    ReadSum(big, field);
    ReadSum(big, data[ofs..ofs + 2]);
    Recalc16Exactly(Read16(big, data[ofs..ofs + 2]), Read16(big, field), Around(big, data, ofs, 2));
    SumIsZero(big, Replaced(data, ofs, field));
  }

  /** Data whose checksum is put into a field that was zero when it was computed has the
      checksum 0, which is how a receiver knows. */
  lemma ChecksumVerifies(big: bool, data: seq<Byte>, ofs: nat, field: seq<Byte>)
    requires ofs % 2 == 0 && |field| == 2 && ofs + 2 <= |data| && data[ofs..ofs + 2] == [0, 0]
    requires Read16(big, field) == Checksum(big, data)
    ensures Checksum(big, Replaced(data, ofs, field)) == 0
  {
    hide Sum, Finished;
    SumWhole(big, data, ofs, 2);
    SumAround(big, data, ofs, field);
    ReadSum(big, field);
    SumIsZero(big, data[ofs..ofs + 2]);
    SumWithChecksum(Sum(big, data));
  }

  lemma Recalc32Step(hc: U16, m: U32, m': U32, rest: nat)
    requires StandsFor(hc, rest + Halves(m))
    ensures StandsFor(Recalc32(hc, m, m'), rest + Halves(m')) && Complement(Recalc32(hc, m, m')) > 0
  {
    hide StandsFor, Recalc16;
    Recalc16Step(hc, m % TWO_16, m' % TWO_16, rest + m / TWO_16);
    Recalc16Step(Recalc16(hc, m % TWO_16, m' % TWO_16), m / TWO_16, m' / TWO_16, rest + m' % TWO_16);
  }

  lemma Recalc32Exact(big: bool, data: seq<Byte>, ofs: nat, field: seq<Byte>)
    requires ofs % 2 == 0 && |field| == 4 && ofs + 4 <= |data|
    ensures var data' := Replaced(data, ofs, field);
      var hc' := Recalc32(Checksum(big, data), Read32(big, data[ofs..ofs + 4]), Read32(big, field));
      hc' == Checksum(big, data') <==> !AllZero(data')
  {
    hide Sum, Finished, Recalc32, StandsFor, Halves, Read32;
    var rest, m, m' := Around(big, data, ofs, 4), Read32(big, data[ofs..ofs + 4]), Read32(big, field);
    SumWhole(big, data, ofs, 4);
    SumAround(big, data, ofs, field);
    ReadSum(big, field);
    ReadSum(big, data[ofs..ofs + 4]);
    FinishedStandsFor(rest + Halves(m));
    Recalc32Step(Checksum(big, data), m, m', rest);
    StandsForExact(Recalc32(Checksum(big, data), m, m'), rest + Halves(m'));
    SumIsZero(big, Replaced(data, ofs, field));
  }

  /** A field of which the bytes before `i` are new. */
  function Mixed(big: bool, field: seq<Byte>, field': seq<Byte>, i: nat): nat
    requires i <= |field| == |field'|
  {
    Sum(big, field'[..i]) + Sum(big, field[i..])
  }

  /** The next piece of a field is replaced. */
  lemma MixedStep(big: bool, field: seq<Byte>, field': seq<Byte>, i: nat, n: nat)
    requires i + n <= |field| == |field'| && i % 2 == 0 && n % 2 == 0
    ensures var rest := Sum(big, field'[..i]) + Sum(big, field[i + n..]);
      && Mixed(big, field, field', i) == rest + Sum(big, field[i..i + n])
      && Mixed(big, field, field', i + n) == rest + Sum(big, field'[i..i + n])
  {
    hide Sum;
    assert field[i..] == field[i..i + n] + field[i + n..];
    assert field'[..i + n] == field'[..i] + field'[i..i + n];
    SumInPieces(big, field[i..i + n], field[i + n..]);
    SumInPieces(big, field'[..i], field'[i..i + n]);
  }

  lemma MixedEnds(big: bool, field: seq<Byte>, field': seq<Byte>)
    requires |field| == |field'|
    ensures Mixed(big, field, field', 0) == Sum(big, field) && Mixed(big, field, field', |field|) == Sum(big, field')
  {
    assert field[0..] == field && field'[..|field|] == field';
  }

  /** recalc_csum48, for an Ethernet address. */
  method Recalc48(big: bool, hc: U16, mac: seq<Byte>, mac': seq<Byte>, ghost data: seq<Byte>, ghost ofs: nat)
    returns (hc': U16)
    requires |mac| == |mac'| == 6 && ofs % 2 == 0 && ofs + 6 <= |data|
    requires data[ofs..ofs + 6] == mac && hc == Checksum(big, data)
    ensures hc' == Checksum(big, Replaced(data, ofs, mac')) <==> !AllZero(Replaced(data, ofs, mac'))
  {
    hide StandsFor, Recalc16, Finished, Sum, Mixed;
    ghost var rest := Around(big, data, ofs, 6);
    SumWhole(big, data, ofs, 6);
    SumAround(big, data, ofs, mac');
    MixedEnds(big, mac, mac');
    hc' := hc;
    FinishedStandsFor(Sum(big, data));
    for i := 0 to 3
      invariant StandsFor(hc', rest + Mixed(big, mac, mac', 2 * i))
      invariant i > 0 ==> Complement(hc') > 0
    {
      var k := 2 * i;
      MixedStep(big, mac, mac', k, 2);
      ReadSum(big, mac[k..k + 2]);
      ReadSum(big, mac'[k..k + 2]);
      var m, m' := Read16(big, mac[k..k + 2]), Read16(big, mac'[k..k + 2]);
      Recalc16Step(hc', m, m', rest + Sum(big, mac'[..k]) + Sum(big, mac[k + 2..]));
      hc' := Recalc16(hc', m, m');
    }
    StandsForExact(hc', Sum(big, Replaced(data, ofs, mac')));
    SumIsZero(big, Replaced(data, ofs, mac'));
  }

  /** recalc_csum128, for an IPv6 address. */
  method Recalc128(big: bool, hc: U16, addr: seq<Byte>, addr': seq<Byte>, ghost data: seq<Byte>, ghost ofs: nat)
    returns (hc': U16)
    requires |addr| == |addr'| == 16 && ofs % 2 == 0 && ofs + 16 <= |data|
    requires data[ofs..ofs + 16] == addr && hc == Checksum(big, data)
    ensures hc' == Checksum(big, Replaced(data, ofs, addr')) <==> !AllZero(Replaced(data, ofs, addr'))
  {
    hide StandsFor, Recalc32, Finished, Sum, Mixed, Read32, Halves;
    ghost var rest := Around(big, data, ofs, 16);
    SumWhole(big, data, ofs, 16);
    SumAround(big, data, ofs, addr');
    MixedEnds(big, addr, addr');
    hc' := hc;
    FinishedStandsFor(Sum(big, data));
    for i := 0 to 4
      invariant StandsFor(hc', rest + Mixed(big, addr, addr', 4 * i))
      invariant i > 0 ==> Complement(hc') > 0
    {
      var k := 4 * i;
      MixedStep(big, addr, addr', k, 4);
      ReadSum(big, addr[k..k + 4]);
      ReadSum(big, addr'[k..k + 4]);
      var m, m' := Read32(big, addr[k..k + 4]), Read32(big, addr'[k..k + 4]);
      Recalc32Step(hc', m, m', rest + Sum(big, addr'[..k]) + Sum(big, addr[k + 4..]));
      hc' := Recalc32(hc', m, m');
    }
    StandsForExact(hc', Sum(big, Replaced(data, ofs, addr')));
    SumIsZero(big, Replaced(data, ofs, addr'));
  }
}
