/** The order reference generator of packages/core/src/order-reference.ts: the accumulate-and-drain
    base32 loop over a 32-bit accumulator, proved against RFC 4648 section 6 encoding of the bit
    string of the input (no padding, section 3.2), with a decoder that recovers the bytes. */
module OrderReference {

  type Byte = b: nat | b < 256
  type Quintet = q: nat | q < 32

  const ALPHABET: string := "abcdefghijklmnopqrstuvwxyz234567"
  const PREFIX: string := "vr_"
  const RANDOM_BYTES: nat := 16
  const TWO_32: int := 0x1_0000_0000

  // ---- JavaScript's 32-bit operators, on the unsigned reading of the accumulator ----

  /** `value << 8`: the high eight bits fall off. */
  function ShiftLeft8(value: nat): nat { (value * 256) % TWO_32 }

  /** `value << k` for the final partial group. */
  function ShiftLeft(value: nat, k: nat): nat { (value * Pow2(k)) % TWO_32 }

  /** `value >>> k` */
  function ShiftRight(value: nat, k: nat): int { value / Pow2(k) }

  function Pow2(k: nat): (p: nat)
    ensures p > 0
  {
    if k == 0 then 1 else 2 * Pow2(k - 1)
  }

  /** On real 32-bit words `x | b` equals `x + b` once `x` has been shifted left by eight: the loop below
      writes the addition. */
  lemma OrAfterShiftIsAdd(x: bv32, b: bv32)
    requires b < 256
    ensures (x << 8) | b == (x << 8) + b
  {
  }

  // ---- The reference definition: bits in, groups of five out ----

  function Bits(n: nat, width: nat): (bs: seq<bool>)
    ensures |bs| == width
  {
    if width == 0 then [] else Bits(n / 2, width - 1) + [n % 2 == 1]
  }

  function Value(bs: seq<bool>): (n: nat)
    ensures n < Pow2(|bs|)
  {
    if bs == [] then 0
    else 2 * Value(bs[..|bs| - 1]) + Bit(bs[|bs| - 1])
  }

  /** The input as one bit string, most significant bit first. */
  function BitString(bytes: seq<Byte>): (bs: seq<bool>)
    ensures |bs| == 8 * |bytes|
  {
    if bytes == [] then [] else BitString(bytes[..|bytes| - 1]) + Bits(bytes[|bytes| - 1], 8)
  }

  function Bit(b: bool): nat { if b then 1 else 0 }

  /** Bit `i`, reading zeros past the end. */
  function BitAt(bs: seq<bool>, i: nat): nat { if i < |bs| then Bit(bs[i]) else 0 }

  /** Group `i` of five bits, the last one zero-filled. */
  function Group(bs: seq<bool>, i: nat): Quintet {
    16 * BitAt(bs, 5 * i) + 8 * BitAt(bs, 5 * i + 1) + 4 * BitAt(bs, 5 * i + 2)
      + 2 * BitAt(bs, 5 * i + 3) + BitAt(bs, 5 * i + 4)
  }

  /** RFC 4648 section 6 over a bit string: one character for each group of five. */
  function Encode(bs: seq<bool>): (text: string)
    ensures |text| == (|bs| + 4) / 5
  {
    seq((|bs| + 4) / 5, i requires 0 <= i => Symbol(Group(bs, i)))
  }

  predicate IsSymbol(c: char) { 'a' <= c <= 'z' || '2' <= c <= '7' }

  predicate IsBase32(text: string) {
    forall i :: 0 <= i < |text| ==> IsSymbol(text[i])
  }

  /** `BASE32_ALPHABET[q]`; see SymbolAt. */
  function Symbol(q: Quintet): char {
    if q < 26 then ('a' as int + q) as char else ('2' as int + q - 26) as char
  }

  /** Inverts the alphabet; any other character reads as zero. */
  function Index(c: char): Quintet {
    if 'a' <= c <= 'z' then c as int - 'a' as int
    else if '2' <= c <= '7' then c as int - '2' as int + 26
    else 0
  }

  /** The bits a base32 text carries, five a character. */
  function DecodeBits(text: string): (bs: seq<bool>)
    ensures |bs| == 5 * |text|
  {
    seq(5 * |text|, i requires 0 <= i < 5 * |text| => Bits(Index(text[i / 5]), 5)[i % 5])
  }

  /** Whole bytes of a bit string; up to seven trailing fill bits are dropped. */
  function BytesOf(bs: seq<bool>): seq<Byte> {
    if |bs| < 8 then []
    else
      assert Pow2(8) == 256;
      [Value(bs[..8])] + BytesOf(bs[8..])
  }

  function Decode(text: string): seq<Byte> { BytesOf(DecodeBits(text)) }

  predicate IsOrderReference(value: string) {
    PREFIX <= value && |value| > |PREFIX|
  }

  /** The exact shape the generator produces: the prefix and 26 base32 characters. */
  predicate HasGeneratedShape(value: string) {
    && |value| == |PREFIX| + 26
    && PREFIX <= value
    && IsBase32(value[|PREFIX|..])
  }

  // ---- Facts about the reference definition ----

  lemma {:induction false} ValueOfBits(n: nat, width: nat)
    requires n < Pow2(width)
    ensures Value(Bits(n, width)) == n
  {
    if width > 0 {
      ValueOfBits(n / 2, width - 1);
      assert Bits(n, width)[..width - 1] == Bits(n / 2, width - 1);
    }
  }

  lemma {:induction false} BitsOfValue(bs: seq<bool>)
    ensures Bits(Value(bs), |bs|) == bs
  {
    if bs != [] {
      var front := bs[..|bs| - 1];
      BitsOfValue(front);
      assert Value(bs) / 2 == Value(front);
      assert bs == front + [bs[|bs| - 1]];
    }
  }

  lemma ValueOfFive(bs: seq<bool>)
    requires |bs| == 5
    ensures Value(bs) == Group(bs, 0)
  {
    ValueSnoc(bs, 0);
    ValueSnoc(bs, 1);
    ValueSnoc(bs, 2);
    ValueSnoc(bs, 3);
    ValueSnoc(bs, 4);
    assert bs[..5] == bs;
  }

  lemma ValueSnoc(bs: seq<bool>, n: nat)
    requires n < |bs|
    ensures Value(bs[..n + 1]) == 2 * Value(bs[..n]) + Bit(bs[n])
  {
    assert bs[..n + 1][..n] == bs[..n];
  }

  lemma {:induction false} Pow2Add(a: nat, b: nat)
    ensures Pow2(a + b) == Pow2(a) * Pow2(b)
  {
    if a > 0 {
      Pow2Add(a - 1, b);
      assert 2 * (Pow2(a - 1) * Pow2(b)) == Pow2(a) * Pow2(b);
    }
  }

  lemma ScaleDouble(x: nat, p: nat, y: nat, bit: nat)
    ensures 2 * (x * p + y) + bit == x * (2 * p) + (2 * y + bit)
  {
  }

  /** Concatenation is shift and add. */
  lemma {:induction false} ValueConcat(a: seq<bool>, b: seq<bool>)
    ensures Value(a + b) == Value(a) * Pow2(|b|) + Value(b)
  {
    if b == [] {
      assert a + b == a;
    } else {
      var front, last := b[..|b| - 1], b[|b| - 1];
      ValueConcat(a, front);
      ValueLast(a + front, last);
      ValueLast(front, last);
      assert b == front + [last];
      assert a + b == (a + front) + [last];
      ScaleDouble(Value(a), Pow2(|front|), Value(front), Bit(last));
    }
  }

  lemma ValueLast(front: seq<bool>, last: bool)
    ensures Value(front + [last]) == 2 * Value(front) + Bit(last)
  {
    assert (front + [last])[..|front|] == front;
  }

  /** `Symbol` reads the source's alphabet string, and `Index` inverts it. */
  lemma SymbolAt(q: Quintet)
    ensures ALPHABET[q] == Symbol(q)
    ensures Index(Symbol(q)) == q
  {
    var letters, digits := "abcdefghijklmnopqrstuvwxyz", "234567";
    assert ALPHABET == letters + digits;
    if q < 26 {
      assert ALPHABET[q] == letters[q];
    } else {
      assert ALPHABET[q] == digits[q - 26];
    }
  }

  /** One group through the alphabet and back. */
  lemma FiveBits(group: seq<bool>)
    requires |group| == 5
    ensures Bits(Index(Symbol(Group(group, 0))), 5) == group
  {
    SymbolAt(Group(group, 0));
    ValueOfFive(group);
    BitsOfValue(group);
  }

  /** A full group depends on its own five bits only. */
  lemma GroupLocal(bs: seq<bool>, i: nat, rest: seq<bool>)
    requires 5 * i + 5 <= |bs|
    ensures Group(bs + rest, i) == Group(bs, i) == Group(bs[5 * i..5 * i + 5], 0)
  {
  }

  lemma GroupBits(bs: seq<bool>, i: nat)
    requires 5 * i < |bs|
    ensures forall k :: 0 <= k < 5 && 5 * i + k < |bs| ==> Bits(Index(Symbol(Group(bs, i))), 5)[k] == bs[5 * i + k]
  {
    var group := (bs + Zeros(5))[5 * i..5 * i + 5];
    FiveBits(group);
    FilledGroup(bs, i);
    assert forall k :: 0 <= k < 5 && 5 * i + k < |bs| ==> group[k] == bs[5 * i + k];
  }

  lemma FilledGroup(bs: seq<bool>, i: nat)
    requires 5 * i < |bs|
    ensures Group(bs, i) == Group((bs + Zeros(5))[5 * i..5 * i + 5], 0)
  {
  }

  lemma DecodeBitsOfEncode(bs: seq<bool>)
    ensures |bs| <= |DecodeBits(Encode(bs))| < |bs| + 5
    ensures DecodeBits(Encode(bs))[..|bs|] == bs
  {
    forall n | 0 <= n < |bs| ensures DecodeBits(Encode(bs))[n] == bs[n] {
      GroupBits(bs, n / 5);
    }
  }

  lemma {:induction false} BytesOfBitString(bytes: seq<Byte>, fill: seq<bool>)
    requires |fill| < 8
    ensures BytesOf(BitString(bytes) + fill) == bytes
  {
    if bytes == [] {
    } else {
      BitStringHead(bytes);
      var rest := bytes[1..];
      var all := BitString(bytes) + fill;
      assert all[..8] == Bits(bytes[0], 8);
      assert all[8..] == BitString(rest) + fill;
      assert Pow2(8) == 256;
      ValueOfBits(bytes[0], 8);
      BytesOfBitString(rest, fill);
    }
  }

  lemma {:induction false} BitStringHead(bytes: seq<Byte>)
    requires bytes != []
    ensures BitString(bytes) == Bits(bytes[0], 8) + BitString(bytes[1..])
  {
    if |bytes| > 1 {
      var front, last := bytes[..|bytes| - 1], bytes[|bytes| - 1];
      BitStringHead(front);
      assert front[1..] == bytes[1..][..|bytes| - 2];
      assert bytes[1..][|bytes| - 2] == last;
    }
  }

  // ---- The loop ----

  /** What one `value >>> (bits - 5) & 31` reads: the five oldest live bits. */
  lemma DrainReadsLiveBits(value: nat, pending: seq<bool>)
    requires 5 <= |pending| <= 12
    requires value % Pow2(|pending|) == Value(pending)
    ensures ShiftRight(value, |pending| - 5) % 32 == Group(pending, 0)
    ensures value % Pow2(|pending| - 5) == Value(pending[5..])
  {
    var k := |pending| - 5;
    ValueConcat(pending[..5], pending[5..]);
    assert pending == pending[..5] + pending[5..];
    ValueOfFive(pending[..5]);
    Pow2Small();
    Pow2Add(5, k);
    var hi, lo := Value(pending[..5]), Value(pending[5..]);
    assert value % (32 * Pow2(k)) == hi * Pow2(k) + lo;
    SplitLowBits(value, Pow2(k), hi, lo);
  }

  lemma SplitLowBits(value: nat, p: nat, hi: nat, lo: nat)
    requires p > 0 && lo < p && hi < 32
    requires value % (32 * p) == hi * p + lo
    ensures (value / p) % 32 == hi
    ensures value % p == lo
  {
    var m := value / (32 * p);
    assert value == (32 * p) * m + hi * p + lo;
    assert value == p * (32 * m + hi) + lo by {
      assert (32 * p) * m == p * (32 * m);
      assert p * (32 * m + hi) == p * (32 * m) + p * hi;
    }
    DivModUnique(value, p, 32 * m + hi, lo);
    assert value / p == 32 * m + hi;
  }

  lemma DivModUnique(n: int, d: int, q: int, r: int)
    requires d > 0 && 0 <= r < d && n == d * q + r
    ensures n / d == q && n % d == r
  {
    var q' := n / d;
    assert d * (q' - q) == r - n % d;
    assert d * (q - q') == n % d - r;
    if q' > q {
      ScaleGrows(d, q' - q);
    } else if q' < q {
      ScaleGrows(d, q - q');
    }
  }

  lemma ScaleGrows(d: int, k: int)
    requires d > 0 && k > 0
    ensures d * k >= d
  {
    MulNonneg(d, k - 1);
    assert d * k == d * (k - 1) + d;
  }

  lemma MulNonneg(a: int, b: int)
    requires a >= 0 && b >= 0
    ensures a * b >= 0
  {
  }

  lemma Pow2Small()
    ensures Pow2(0) == 1 && Pow2(1) == 2 && Pow2(2) == 4 && Pow2(3) == 8 && Pow2(4) == 16
    ensures Pow2(5) == 32 && Pow2(6) == 64 && Pow2(7) == 128 && Pow2(8) == 256
    ensures Pow2(9) == 512 && Pow2(10) == 1024 && Pow2(11) == 2048 && Pow2(12) == 4096
  {
    assert Pow2(4) == 16;
    assert Pow2(8) == 256;
    assert Pow2(10) == 1024;
  }

  /** Wrapping at 2^32 is invisible modulo a divisor of 2^32. */
  lemma WrapKeepsLowBits(n: nat, d: nat, q: nat, high: nat, low: nat)
    requires d > 0 && d * q == TWO_32
    requires n == d * high + low && low < d
    ensures (n % TWO_32) % d == low
  {
    var k := n / TWO_32;
    assert n == TWO_32 * k + n % TWO_32;
    assert TWO_32 * k == d * (q * k);
    assert n % TWO_32 == d * (high - q * k) + low;
    DivModUnique(n % TWO_32, d, high - q * k, low);
  }

  /** `value << 8` leaves room for a byte below. */
  lemma ShiftLeft8Room(value: nat)
    ensures ShiftLeft8(value) % 256 == 0
    ensures ShiftLeft8(value) + 256 <= TWO_32
  {
    WrapKeepsLowBits(value * 256, 256, 0x100_0000, value, 0);
  }

  lemma ShiftAppend(value: nat, byte: Byte, p: nat, q: nat)
    requires p > 0 && (256 * p) * q == TWO_32
    ensures (ShiftLeft8(value) + byte) % (256 * p) == (value % p) * 256 + byte
  {
    var d, high, low := 256 * p, value / p, value % p;
    assert value * 256 == d * high + 256 * low;
    WrapKeepsLowBits(value * 256, d, q, high, 256 * low);
    var w := ShiftLeft8(value);
    assert w == d * (w / d) + 256 * low;
    DivModUnique(w + byte, d, w / d, 256 * low + byte);
  }

  /** Appending a byte keeps the low `bits + 8` bits exact although the word wraps. */
  lemma AppendByte(value: nat, pending: seq<bool>, byte: Byte)
    requires |pending| <= 4
    requires value % Pow2(|pending|) == Value(pending)
    ensures (ShiftLeft8(value) + byte) % Pow2(|pending| + 8) == Value(pending + Bits(byte, 8))
  {
    Pow2Small();
    Pow2Add(8, |pending|);
    Pow2Add(|pending| + 8, 24 - |pending|);
    Pow2Add(8, 8);
    Pow2Add(16, 16);
    ValueOfBits(byte, 8);
    ValueConcat(pending, Bits(byte, 8));
    ShiftAppend(value, byte, Pow2(|pending|), Pow2(24 - |pending|));
  }

  lemma ShiftPartial(value: nat, p: nat, f: nat)
    requires p > 0 && f > 0 && p * f == 32
    ensures ((value * f) % TWO_32) % 32 == (value % p) * f
  {
    var high, low := value / p, value % p;
    assert value == p * high + low;
    ShiftedSplit(p, f, high, low);
    WrapKeepsLowBits(value * f, 32, TWO_32 / 32, high, low * f);
  }

  lemma ShiftedSplit(p: nat, f: nat, high: nat, low: nat)
    requires low < p && f > 0 && p * f == 32
    ensures (p * high + low) * f == 32 * high + low * f
    ensures 0 <= low * f < 32
  {
    assert (p * high) * f == (p * f) * high;
    MulNonneg(low, f);
    MulNonneg(p - 1 - low, f);
    assert (p - 1 - low) * f == p * f - f - low * f;
  }

  /** The final `(value << (5 - bits)) & 31` is the zero-filled last group. */
  lemma FinalGroup(value: nat, pending: seq<bool>)
    requires 0 < |pending| < 5
    requires value % Pow2(|pending|) == Value(pending)
    ensures ShiftLeft(value, 5 - |pending|) % 32 == Group(pending, 0)
  {
    Pow2Small();
    Pow2Add(|pending|, 5 - |pending|);
    ValueOfZeros(5 - |pending|);
    ValueConcat(pending, Zeros(5 - |pending|));
    ValueOfFive(pending + Zeros(5 - |pending|));
    ShiftPartial(value, Pow2(|pending|), Pow2(5 - |pending|));
  }

  function Zeros(n: nat): (z: seq<bool>)
    ensures |z| == n
  {
    seq(n, i => false)
  }

  lemma {:induction false} ValueOfZeros(n: nat)
    ensures Value(Zeros(n)) == 0
  {
    if n > 0 {
      ValueOfZeros(n - 1);
      assert Zeros(n)[..n - 1] == Zeros(n - 1);
    }
  }

  /** The loop's state over the bit string read so far: `out` holds the full groups, and the low
      `bits` bits of the accumulator are the bits still pending; anything above them is stale. */
  ghost predicate Accumulates(value: nat, bits: nat, out: string, bs: seq<bool>) {
    && value < TWO_32
    && |bs| == 5 * |out| + bits
    && (forall i :: 0 <= i < |out| ==> out[i] == Symbol(Group(bs, i)))
    && Bits(value, bits) == bs[5 * |out|..]
  }

  lemma HalveRemainder(value: nat, p: nat)
    requires p > 0
    ensures value % (2 * p) == 2 * (value / 2 % p) + value % 2
  {
    var q, r := value / 2 / p, value / 2 % p;
    assert value / 2 == p * q + r;
    assert value == (2 * p) * q + (2 * r + value % 2);
    DivModUnique(value, 2 * p, q, 2 * r + value % 2);
  }

  /** The low bits of a word as a bit string, and as a remainder. */
  lemma {:induction false} LowBits(value: nat, pending: seq<bool>)
    ensures Bits(value, |pending|) == pending <==> value % Pow2(|pending|) == Value(pending)
  {
    if pending != [] {
      var front := pending[..|pending| - 1];
      LowBits(value / 2, front);
      HalveRemainder(value, Pow2(|front|));
      assert pending == front + [pending[|pending| - 1]];
    }
  }

  lemma DrainStep(value: nat, bits: nat, out: string, bs: seq<bool>)
    requires Accumulates(value, bits, out, bs) && 5 <= bits <= 12
    ensures Accumulates(value, bits - 5, out + [Symbol(ShiftRight(value, bits - 5) % 32)], bs)
  {
    var pending := bs[5 * |out|..];
    LowBits(value, pending);
    DrainReadsLiveBits(value, pending);
    LowBits(value, pending[5..]);
    assert Group(pending, 0) == Group(bs, |out|);
    assert pending[5..] == bs[5 * |out| + 5..];
  }

  lemma AppendStep(value: nat, bits: nat, out: string, bs: seq<bool>, byte: Byte)
    requires Accumulates(value, bits, out, bs) && bits <= 4
    ensures Accumulates(ShiftLeft8(value) + byte, bits + 8, out, bs + Bits(byte, 8))
  {
    forall i | 0 <= i < |out| ensures out[i] == Symbol(Group(bs + Bits(byte, 8), i)) {
      GroupLocal(bs, i, Bits(byte, 8));
    }
    AppendLowBits(value, bs[5 * |out|..], byte);
    assert (bs + Bits(byte, 8))[5 * |out|..] == bs[5 * |out|..] + Bits(byte, 8);
  }

  lemma AppendLowBits(value: nat, pending: seq<bool>, byte: Byte)
    requires |pending| <= 4 && Bits(value, |pending|) == pending
    ensures Bits(ShiftLeft8(value) + byte, |pending| + 8) == pending + Bits(byte, 8)
    ensures ShiftLeft8(value) + byte < TWO_32
  {
    LowBits(value, pending);
    AppendByte(value, pending, byte);
    LowBits(ShiftLeft8(value) + byte, pending + Bits(byte, 8));
    ShiftLeft8Room(value);
  }

  lemma LastGroup(value: nat, bits: nat, out: string, bs: seq<bool>)
    requires Accumulates(value, bits, out, bs) && 0 < bits < 5
    ensures ShiftLeft(value, 5 - bits) % 32 == Group(bs, |out|)
  {
    var pending := bs[5 * |out|..];
    LowBits(value, pending);
    FinalGroup(value, pending);
    assert Group(pending, 0) == Group(bs, |out|);
  }

  lemma IsEncoding(text: string, bs: seq<bool>)
    requires |text| == (|bs| + 4) / 5
    requires forall i :: 0 <= i < |text| ==> text[i] == Symbol(Group(bs, i))
    ensures text == Encode(bs)
  {
  }

  lemma FinishStep(value: nat, bits: nat, out: string, bs: seq<bool>)
    requires Accumulates(value, bits, out, bs) && bits < 5
    ensures bits == 0 ==> out == Encode(bs)
    ensures bits > 0 ==> out + [Symbol(ShiftLeft(value, 5 - bits) % 32)] == Encode(bs)
  {
    if bits == 0 {
      IsEncoding(out, bs);
    } else {
      LastGroup(value, bits, out, bs);
      IsEncoding(out + [Symbol(ShiftLeft(value, 5 - bits) % 32)], bs);
    }
  }

  /** One byte appended and nothing else done to the bit string. */
  lemma BitStringSnoc(bytes: seq<Byte>, n: nat)
    requires n < |bytes|
    ensures BitString(bytes[..n + 1]) == BitString(bytes[..n]) + Bits(bytes[n], 8)
  {
    assert bytes[..n + 1][..n] == bytes[..n];
  }

  /** `generateOrderReference`, with the random bytes as its argument. */
  method GenerateOrderReference(bytes: seq<Byte>) returns (reference: string)
    ensures reference == PREFIX + Encode(BitString(bytes))
  {
    var bits: nat := 0;
    var value: nat := 0;
    var out := "";
    for n := 0 to |bytes|
      invariant bits <= 4 && Accumulates(value, bits, out, BitString(bytes[..n]))
    {
      var byte := bytes[n];
      AppendStep(value, bits, out, BitString(bytes[..n]), byte);
      BitStringSnoc(bytes, n);
      value := ShiftLeft8(value) + byte; // `(value << 8) | byte`, by OrAfterShiftIsAdd
      bits := bits + 8;
      while bits >= 5
        invariant bits <= 12 && Accumulates(value, bits, out, BitString(bytes[..n + 1]))
      {
        DrainStep(value, bits, out, BitString(bytes[..n + 1]));
        out := out + [Symbol(ShiftRight(value, bits - 5) % 32)];
        bits := bits - 5;
      }
    }
    assert bytes[..|bytes|] == bytes;
    FinishStep(value, bits, out, BitString(bytes));
    if bits > 0 {
      out := out + [Symbol(ShiftLeft(value, 5 - bits) % 32)];
    }
    reference := PREFIX + out;
  }

  // ---- What the reference is for ----

  /** Decoding gives the bits back, followed by at most four fill bits. */
  lemma DecodedWithFill(bs: seq<bool>) returns (fill: seq<bool>)
    ensures |fill| < 5 && DecodeBits(Encode(bs)) == bs + fill
  {
    hide Encode, DecodeBits;
    DecodeBitsOfEncode(bs);
    var decoded := DecodeBits(Encode(bs));
    fill := decoded[|bs|..];
    assert decoded == decoded[..|bs|] + fill;
  }

  /** A decoder recovers the bytes from the text, for inputs of every length. */
  lemma DecodeEncode(bytes: seq<Byte>)
    ensures Decode(Encode(BitString(bytes))) == bytes
  {
    hide Encode, DecodeBits, BytesOf, BitString;
    var fill := DecodedWithFill(BitString(bytes));
    BytesOfBitString(bytes, fill);
  }

  /** Distinct random draws, of any lengths, give distinct references. */
  lemma DistinctDraws(a: seq<Byte>, b: seq<Byte>)
    ensures PREFIX + Encode(BitString(a)) == PREFIX + Encode(BitString(b)) <==> a == b
  {
    DecodeEncode(a);
    DecodeEncode(b);
    if PREFIX + Encode(BitString(a)) == PREFIX + Encode(BitString(b)) {
      assert (PREFIX + Encode(BitString(a)))[|PREFIX|..] == Encode(BitString(a));
      assert (PREFIX + Encode(BitString(b)))[|PREFIX|..] == Encode(BitString(b));
    }
  }

  /** Sixteen bytes give the documented shape, which the webhook's shape test accepts and which is
      never an all-digit string (the transitional order-number form). */
  lemma GeneratedShape(bytes: seq<Byte>)
    requires |bytes| == RANDOM_BYTES
    ensures HasGeneratedShape(PREFIX + Encode(BitString(bytes)))
    ensures IsOrderReference(PREFIX + Encode(BitString(bytes)))
    ensures exists i :: 0 <= i < |PREFIX| && !('0' <= (PREFIX + Encode(BitString(bytes)))[i] <= '9')
  {
    forall i | 0 <= i < 26 ensures IsSymbol(Encode(BitString(bytes))[i]) {
    }
    var r := PREFIX + Encode(BitString(bytes));
    assert r[|PREFIX|..] == Encode(BitString(bytes));
    assert r[0] == 'v';
  }

}
