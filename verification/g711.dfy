/**
 G.711 companding. Samples are 16-bit two's complement numbers and codes are octets. A shift or a mask of a
 number is written as floor division and remainder by a power of two, and an `or` of disjoint bit fields as a sum.
 */
module G711 {

  type Sample = x: int | -0x8000 <= x < 0x8000
  type Code = c: int | 0 <= c < 256

  function Wrap16(n: int): Sample {
    (n + 0x8000) % 0x1_0000 - 0x8000
  }

  // 2 to the `n`.
  function Shift(n: nat): (p: nat)
    requires n <= 12
    ensures p >= 1
  {
    match n
    case 0 => 1 case 1 => 2 case 2 => 4 case 3 => 8 case 4 => 0x10 case 5 => 0x20 case 6 => 0x40
    case 7 => 0x80 case 8 => 0x100 case 9 => 0x200 case 10 => 0x400 case 11 => 0x800 case 12 => 0x1000
  }

  lemma ShiftsScale(p: int)
    requires 5 <= p <= 12
    ensures Shift(p) == 16 * Shift(p - 4) && Shift(p - 4) == 2 * Shift(p - 5)
  {
  }

  lemma SomeShifts()
    ensures Shift(11) == 0x800 && Shift(12) == 0x1000
  {
  }

  predicate BitSet(n: int, position: int)
    requires 0 <= position <= 12
  {
    n / Shift(position) % 2 == 1
  }

  // The scan both encoders share: down from `position` to the top bit that is set, and never below 4.
  function TopBit(n: int, position: int): (p: int)
    requires 4 <= position <= 12
    ensures 4 <= p <= position
  {
    if position >= 5 && !BitSet(n, position) then TopBit(n, position - 1) else position
  }

  method ScanDown(n: int, mask0: nat, position0: int) returns (position: int)
    requires 4 <= position0 <= 12 && mask0 == Shift(position0)
    ensures position == TopBit(n, position0)
  {
    var mask := mask0;
    position := position0;
    while position >= 5 && n / mask % 2 != 1
      invariant 4 <= position <= position0 && mask == Shift(position)
      invariant TopBit(n, position0) == TopBit(n, position)
    {
      mask := mask / 2;
      position := position - 1;
    }
  }

  // `(n >> shift) & 0x0f`
  function Nibble(n: int, shift: nat): (l: nat)
    requires shift <= 12
    ensures l < 16
  {
    n / Shift(shift) % 16
  }

  // `sign | (exponent << 4) | lsb` as an octet; an exponent of -1 sets every bit above the low four.
  function Fields(sign: int, exponent: int, lsb: int): Code
    requires sign in {0, 0x80} && -1 <= exponent < 8 && 0 <= lsb < 16
  {
    if exponent == -1 then 0xF0 + lsb else sign + exponent * 16 + lsb
  }

  function SignBit(negative: bool): int {
    if negative then 0x80 else 0
  }

  // ---------- mu-law ----------

  const MULAW_MAX := 0x1FFF
  const MULAW_BIAS := 33

  function MuMagnitude(x: Sample): int {
    var a: int := x;
    var n: int := Wrap16((if a < 0 then Wrap16(-a) as int else a) + MULAW_BIAS);
    if n > MULAW_MAX then MULAW_MAX else n
  }

  function MuEncode(x: Sample): Code {
    var n := MuMagnitude(x);
    var position := TopBit(n, 12);
    255 - Fields(SignBit(x < 0), position - 5, Nibble(n, position - 4))
  }

  method MuLaw_Encode(x: Sample) returns (c: Code)
    ensures c == MuEncode(x)
  {
    hide TopBit, Nibble, Fields, Shift;
    SomeShifts();
    var number: int := x;
    var sign := 0;
    if number < 0 {
      number := Wrap16(-number);
      sign := 0x80;
    }
    number := Wrap16(number + MULAW_BIAS);
    if number > MULAW_MAX {
      number := MULAW_MAX;
    }
    var position := ScanDown(number, 0x1000, 12);
    var lsb := Nibble(number, position - 4);
    c := 255 - Fields(sign, position - 5, lsb);
  }

  // `(1 << position) | (lsb << (position - 4)) | (1 << (position - 5))`
  function Cell(position: int, lsb: nat): (n: int)
    requires 5 <= position <= 12 && lsb < 16
    ensures Shift(position) < n < 2 * Shift(position) <= 0x2000
  {
    ShiftsScale(position);
    assert 0 <= lsb * Shift(position - 4) <= 15 * Shift(position - 4);
    Shift(position) + lsb * Shift(position - 4) + Shift(position - 5)
  }

  function MuDecode(c: Code): Sample {
    var n := 255 - c;
    var position := n % 128 / 16 + 5;
    var decoded := Cell(position, n % 16) - MULAW_BIAS;
    if n >= 128 then -decoded else decoded
  }

  // ---------- Segments ----------

  lemma TopBitSet(n: int, position: int)
    requires 5 <= position <= 12 && 0 <= n < 2 * Shift(position)
    ensures BitSet(n, position) <==> n >= Shift(position)
    ensures position > 5 ==> Shift(position) == 2 * Shift(position - 1)
  {
    match position {
      case 5 => case 6 => case 7 => case 8 => case 9 => case 10 => case 11 => case 12 =>
    }
  }

  lemma {:induction false} TopBitBounds(n: int, position: int)
    requires 5 <= position <= 12 && 32 <= n < 2 * Shift(position)
    ensures var p := TopBit(n, position); 5 <= p <= position && Shift(p) <= n < 2 * Shift(p)
  {
    TopBitSet(n, position);
    if n < Shift(position) && position > 5 {
      TopBitBounds(n, position - 1);
    }
  }

  function Abs(x: int): (a: nat) {
    if x < 0 then -x else x
  }

  // The middle of the quantisation cell `n` falls in.
  function Middle(n: int): int
    requires 32 <= n <= 0x1FFF
  {
    var p := TopBit(n, 12);
    TopBitBounds(n, 12);
    n - n % Shift(p - 4) + Shift(p - 5)
  }

  lemma MiddleIsClose(n: int)
    requires 32 <= n <= 0x1FFF
    ensures var p := TopBit(n, 12);
            p >= 5 && Shift(p) <= Middle(n) < 2 * Shift(p) && Abs(Middle(n) - n) <= Shift(p - 5)
            && 32 * Shift(p - 5) <= n
  {
    TopBitBounds(n, 12);
    match TopBit(n, 12) {
      case 5 => case 6 => case 7 => case 8 => case 9 => case 10 => case 11 => case 12 =>
    }
  }

  lemma SegmentIsUnique(n: int, p: int)
    requires 32 <= n <= 0x1FFF && 5 <= p <= 12 && Shift(p) <= n < 2 * Shift(p)
    ensures TopBit(n, 12) == p
  {
    TopBitBounds(n, 12);
    var q := TopBit(n, 12);
    match p {
      case 5 => case 6 => case 7 => case 8 => case 9 => case 10 => case 11 => case 12 =>
    }
  }

  lemma MiddleIsMonotone(m: int, n: int)
    requires 32 <= m <= n <= 0x1FFF
    ensures Middle(m) <= Middle(n)
  {
    hide TopBit;
    MiddleIsClose(m);
    MiddleIsClose(n);
    TopBitBounds(m, 12);
    TopBitBounds(n, 12);
    if TopBit(m, 12) == TopBit(n, 12) {
      CellsKeepOrder(m, n, Shift(TopBit(m, 12) - 4));
    }
  }

  lemma TimesKeepsOrder(s: int, a: int, b: int)
    ensures s > 0 && a <= b ==> s * a <= s * b
  {
    if s > 0 && a <= b {
      assert s * (b - a) >= 0;
    }
  }

  lemma CellsKeepOrder(m: int, n: int, s: int)
    requires s > 0 && m <= n
    ensures m - m % s <= n - n % s
  {
    var a, b := m / s, n / s;
    assert m == s * a + m % s && n == s * b + n % s;
    TimesKeepsOrder(s, b + 1, a);
    TimesKeepsOrder(s, a, b);
  }

  lemma MultiplesAreApart(s: int, k: int)
    requires s > 0 && k != 0
    ensures s * k >= s || s * k <= -s
  {
    if k > 0 {
      assert s * (k - 1) >= 0;
    } else {
      assert s * (-k - 1) >= 0;
    }
  }

  lemma QuotientAndRemainder(s: int, q: int, r: int)
    requires 0 <= r < s
    ensures (s * q + r) / s == q && (s * q + r) % s == r
  {
    var n := s * q + r;
    var d, m := n / s, n % s;
    assert n == s * d + m && 0 <= m < s;
    assert s * (d - q) == s * d - s * q;
    if d != q {
      MultiplesAreApart(s, d - q);
    }
  }

  lemma MiddleOfMiddle(n: int, p: int)
    requires 5 <= p <= 12
    ensures (n - n % Shift(p - 4) + Shift(p - 5)) % Shift(p - 4) == Shift(p - 5)
  {
    ShiftsScale(p);
    QuotientAndRemainder(Shift(p - 4), n / Shift(p - 4), Shift(p - 5));
  }

  lemma MiddleIsFixed(n: int)
    requires 32 <= n <= 0x1FFF
    ensures 32 <= Middle(n) <= 0x1FFF && Middle(Middle(n)) == Middle(n)
  {
    hide TopBit;
    MiddleIsClose(n);
    var p := TopBit(n, 12);
    assert 2 * Shift(p) <= 0x2000;
    SegmentIsUnique(Middle(n), p);
    MiddleOfMiddle(n, p);
  }

  // The top bit and the four bits below it say which cell `n` is in.
  lemma QuotientInSegment(n: int, p: int)
    requires 5 <= p <= 12 && Shift(p) <= n < 2 * Shift(p)
    ensures 16 <= n / Shift(p - 4) < 32
  {
    ShiftsScale(p);
    var s, q := Shift(p - 4), n / Shift(p - 4);
    assert n == s * q + n % s;
    TimesKeepsOrder(s, q, 15);
    TimesKeepsOrder(s, 32, q);
  }

  lemma CellFromNibble(n: int, p: int)
    requires 5 <= p <= 12 && Shift(p) <= n < 2 * Shift(p)
    ensures Cell(p, Nibble(n, p - 4)) == n - n % Shift(p - 4) + Shift(p - 5)
  {
    ShiftsScale(p);
    QuotientInSegment(n, p);
    var s, q := Shift(p - 4), n / Shift(p - 4);
    assert (q - 16) * s == s * q - 16 * s;
  }

  lemma NibbleOfCell(p: int, l: nat)
    requires 5 <= p <= 12 && l < 16
    ensures Nibble(Cell(p, l), p - 4) == l
  {
    ShiftsScale(p);
    var s := Shift(p - 4);
    assert Cell(p, l) == s * (16 + l) + Shift(p - 5);
    QuotientAndRemainder(s, 16 + l, Shift(p - 5));
  }

  lemma FieldsAreDisjoint(f: int, sign: int, exponent: int, lsb: int)
    requires sign in {0, 0x80} && 0 <= exponent < 8 && 0 <= lsb < 16
    requires f == Fields(sign, exponent, lsb)
    ensures (f >= 128 <==> sign != 0) && f % 128 / 16 == exponent && f % 16 == lsb
  {
  }

  // An octet is made of its fields.
  lemma FieldsOfOctet(f: Code)
    ensures f == Fields(SignBit(f >= 128), f % 128 / 16, f % 16)
  {
  }

  // ---------- mu-law round trips ----------

  function MuRoundTrip(x: Sample): Sample {
    MuDecode(MuEncode(x))
  }

  // Beyond this the biased magnitude leaves 16 bits.
  predicate InMuDomain(x: int) {
    -32734 <= x <= 32734
  }

  lemma MuDecodeOfFields(negative: bool, p: int, l: nat)
    requires 5 <= p <= 12 && l < 16
    ensures var f := Fields(SignBit(negative), p - 5, l);
            MuDecode(255 - f) == if negative then 33 - Cell(p, l) else Cell(p, l) - 33
  {
    FieldsAreDisjoint(Fields(SignBit(negative), p - 5, l), SignBit(negative), p - 5, l);
  }

  lemma MuEncodeToFields(x: Sample, n: int, p: int)
    requires n == MuMagnitude(x) && 32 <= n && p == TopBit(n, 12) && p >= 5
    ensures MuEncode(x) == 255 - Fields(SignBit(x < 0), p - 5, Nibble(n, p - 4))
  {
  }

  lemma MuRoundTripOfCell(x: Sample, n: int, p: int)
    requires n == MuMagnitude(x) && 32 <= n && p == TopBit(n, 12) && p >= 5
    ensures var m := Cell(p, Nibble(n, p - 4));
            MuRoundTrip(x) == if x < 0 then 33 - m else m - 33
  {
    hide MuEncode, MuDecode, Cell, Nibble, MuMagnitude, TopBit;
    MuEncodeToFields(x, n, p);
    MuDecodeOfFields(x < 0, p, Nibble(n, p - 4));
  }

  // The biased and clipped magnitude of a sample in the domain.
  function MuBiased(x: Sample): (n: int)
    requires InMuDomain(x)
    ensures 33 <= n <= MULAW_MAX
  {
    if Abs(x) <= 8158 then Abs(x) + 33 else MULAW_MAX
  }

  lemma MuMagnitudeInDomain(x: Sample)
    requires InMuDomain(x)
    ensures MuMagnitude(x) == MuBiased(x)
  {
  }

  lemma MuRoundTripIsMiddle(x: Sample)
    requires InMuDomain(x)
    ensures MuRoundTrip(x) == if x < 0 then 33 - Middle(MuBiased(x)) else Middle(MuBiased(x)) - 33
  {
    hide MuRoundTrip, MuMagnitude, Cell, Nibble;
    var n := MuBiased(x);
    var p := TopBit(n, 12);
    MuMagnitudeInDomain(x);
    TopBitBounds(n, 12);
    MuRoundTripOfCell(x, n, p);
    CellFromNibble(n, p);
  }

  /** The error of mu-law is at most a thirty-second of the biased magnitude, until it clips at 8031. */
  lemma MuErrorBound(x: Sample)
    requires InMuDomain(x)
    ensures Abs(x) <= 8158 ==> 32 * Abs(MuRoundTrip(x) - x) <= Abs(x) + 33
    ensures x > 8158 ==> MuRoundTrip(x) == 8031
    ensures x < -8158 ==> MuRoundTrip(x) == -8031
  {
    hide MuRoundTrip;
    MuRoundTripIsMiddle(x);
    if Abs(x) <= 8158 {
      MiddleIsClose(Abs(x) + 33);
    } else {
      SegmentIsUnique(0x1FFF, 12);
    }
  }

  lemma MuIsOdd(x: Sample)
    requires InMuDomain(x)
    ensures MuRoundTrip(-x) == -MuRoundTrip(x)
  {
    hide MuRoundTrip;
    MuRoundTripIsMiddle(x);
    MuRoundTripIsMiddle(-x);
    SegmentIsUnique(33, 5);
  }

  lemma MuIsMonotone(x: Sample, y: Sample)
    requires InMuDomain(x) && InMuDomain(y) && x <= y
    ensures MuRoundTrip(x) <= MuRoundTrip(y)
  {
    hide MuRoundTrip;
    MuRoundTripIsMiddle(x);
    MuRoundTripIsMiddle(y);
    var m, n := MuBiased(x), MuBiased(y);
    SegmentIsUnique(33, 5);
    MiddleIsMonotone(33, m);
    MiddleIsMonotone(33, n);
    if m <= n { MiddleIsMonotone(m, n); } else { MiddleIsMonotone(n, m); }
  }

  lemma MuFixesMiddles(y: Sample, m: int)
    requires 33 <= m <= 8064 && Middle(m) == m && (y == m - 33 || y == 33 - m)
    ensures MuRoundTrip(y) == y
  {
    hide MuRoundTrip;
    assert MuBiased(y) == m;
    MuRoundTripIsMiddle(y);
  }

  lemma MiddleRange(n: int)
    requires 33 <= n <= 0x1FFF
    ensures 33 <= Middle(n) <= 8064
  {
    hide TopBit;
    SegmentIsUnique(33, 5);
    SegmentIsUnique(0x1FFF, 12);
    MiddleIsMonotone(33, n);
    MiddleIsMonotone(n, 0x1FFF);
  }

  lemma MuIsIdempotent(x: Sample)
    requires InMuDomain(x)
    ensures MuRoundTrip(MuRoundTrip(x)) == MuRoundTrip(x)
  {
    hide MuRoundTrip, Middle;
    var n := MuBiased(x);
    MuRoundTripIsMiddle(x);
    MiddleRange(n);
    MiddleIsFixed(n);
    MuFixesMiddles(MuRoundTrip(x), Middle(n));
  }

  lemma MuDecodeMagnitude(negative: bool, p: int, l: nat)
    requires 5 <= p <= 12 && l < 16
    ensures var x: int := if negative then 33 - Cell(p, l) else Cell(p, l) - 33;
            MuMagnitude(x) == Cell(p, l)
  {
    hide Cell, Shift;
    LeastCell(p, l);
  }

  lemma SmallestCell(p: int, l: nat)
    requires 5 <= p <= 12 && l < 16
    ensures Cell(p, l) == 33 <==> p == 5 && l == 0
  {
    if p > 5 {
      assert Shift(p) >= 0x40;
    }
  }

  /** Every code survives decoding and encoding, except that negative zero becomes positive zero. */
  lemma MuCodesSurvive(c: Code)
    ensures MuEncode(MuDecode(c)) == if c == 0x7F then 0xFF else c
  {
    hide MuEncode, MuDecode, Nibble, MuMagnitude;
    var f := 255 - c;
    var p, l := f % 128 / 16 + 5, f % 16;
    FieldsOfOctet(f);
    MuDecodeOfFields(f >= 128, p, l);
    MuDecodeMagnitude(f >= 128, p, l);
    NibbleOfCell(p, l);
    SegmentIsUnique(Cell(p, l), p);
    MuEncodeToFields(MuDecode(c), Cell(p, l), p);
    SmallestCell(p, l);
  }

  lemma ClearBit(n: int, position: int)
    requires 5 <= position <= 12 && -0x8000 <= n < -0x8000 + Shift(position)
    ensures !BitSet(n, position)
  {
    var s: int := Shift(position);
    var q: int := -0x8000 / s;
    assert s >= 32 && s * q == -0x8000 && q % 2 == 0;
    QuotientAndRemainder(s, q, n + 0x8000);
  }

  lemma ShiftIsLarge(position: int)
    requires 5 <= position <= 12
    ensures Shift(position) >= 32
  {
  }

  // Past the domain the biased magnitude wraps to a negative number, whose scan finds nothing.
  lemma {:induction false} NoTopBit(n: int, position: int)
    requires -0x8000 <= n < -0x8000 + 32 && 4 <= position <= 12
    ensures TopBit(n, position) == 4
  {
    if position > 4 {
      ShiftIsLarge(position);
      ClearBit(n, position);
      NoTopBit(n, position - 1);
    }
  }

  /** Loud positive samples clip exactly up to 32734; the rest come out negative or as silence. */
  lemma MuClipsExactlyInDomain(x: Sample)
    requires x > 8158
    ensures MuRoundTrip(x) == 8031 <==> InMuDomain(x)
  {
    hide MuRoundTrip;
    if InMuDomain(x) {
      MuErrorBound(x);
    } else {
      PastTheDomainCell(x);
    }
  }

  /**
   Samples past the domain lose their sign and their loudness: the last four bits of the sum that wrapped say which of
   sixteen negative values comes out, and the last two samples on either side come out as silence.
   */
  lemma PastTheDomain(x: Sample)
    requires !InMuDomain(x)
    ensures MuRoundTrip(x) == if Abs(x) >= 32767 then 0 else -4191 - 256 * ((Abs(x) + 33) % 16)
  {
    PastTheDomainCell(x);
    if Abs(x) < 32767 {
      LastFourBits(x);
    }
  }

  lemma LastFourBits(x: Sample)
    requires !InMuDomain(x)
    ensures Cell(12, Nibble(Abs(x) + 33 - 0x1_0000, 0)) == 4224 + 256 * ((Abs(x) + 33) % 16)
  {
    var l := Nibble(Abs(x) + 33 - 0x1_0000, 0);
    assert l == (Abs(x) + 33) % 16;
    assert Cell(12, l) == 4096 + l * 256 + 128;
  }

  lemma PastTheDomainCell(x: Sample)
    requires !InMuDomain(x)
    ensures MuRoundTrip(x) == if Abs(x) >= 32767 then 0 else 33 - Cell(12, Nibble(Abs(x) + 33 - 0x1_0000, 0))
  {
    hide Cell, Nibble, TopBit;
    var n := Abs(x) + 33 - 0x1_0000;
    assert MuMagnitude(x) == n;
    if Abs(x) < 32767 {
      NoTopBit(n, 12);
      MuDecodeOfFields(true, 12, Nibble(n, 0));
    } else {
      LastWrap(n, 12);
      ZeroCell(n);
      MuDecodeOfFields(x < 0, 5, 0);
    }
  }

  lemma ZeroCell(n: int)
    requires n == -32736 || n == -32735
    ensures Nibble(n, 1) == 0 && Cell(5, 0) == 33
  {
  }

  lemma {:induction false} LastWrap(n: int, position: int)
    requires n == -32736 || n == -32735
    requires 5 <= position <= 12
    ensures TopBit(n, position) == 5
  {
    hide BitSet, Shift;
    if position > 5 {
      LargerShift(5, position);
      FirstShift();
      ClearBit(n, position);
      LastWrap(n, position - 1);
    } else {
      QuotientAndRemainder(32, -1023, n + 32736);
      FifthBit(n);
    }
  }

  lemma FirstShift()
    ensures Shift(5) == 32
  {
  }

  lemma FifthBit(n: int)
    requires n / 32 == -1023
    ensures BitSet(n, 5)
  {
  }

  // ---------- Which code a sample gets ----------

  lemma LargerShift(p: int, q: int)
    requires 4 <= p < q <= 12
    ensures 2 * Shift(p) <= Shift(q)
  {
    match p { case 4 => case 5 => case 6 => case 7 => case 8 => case 9 => case 10 => case 11 => }
  }

  lemma CellsInOrder(p: int, l: nat, q: int, k: nat)
    requires 5 <= p <= q <= 12 && l < 16 && k < 16 && (p < q || l < k)
    ensures Cell(p, l) < Cell(q, k)
  {
    if p < q {
      LargerShift(p, q);
    } else {
      TimesKeepsOrder(Shift(p - 4), l + 1, k);
      assert Shift(p - 4) * (l + 1) == l * Shift(p - 4) + Shift(p - 4);
      assert Shift(p - 4) * k == k * Shift(p - 4);
    }
  }

  function High(f: Code): (p: nat)
    ensures p < 8
  {
    f % 128 / 16
  }

  lemma OctetsInOrder(m: Code, n: Code)
    requires m < n && (n < 128 || m >= 128)
    ensures High(m) < High(n) || (High(m) == High(n) && m % 16 < n % 16)
  {
  }

  lemma MuDecodeByHigh(c: Code)
    ensures var v := Cell(High(255 - c) + 5, (255 - c) % 16) - MULAW_BIAS;
            MuDecode(c) == if c < 128 then -v else v
  {
  }

  /**
   Codes decode in strict order within each sign: from 0x80 up to 0xFF the values fall to zero, and below 0x80
   they rise.
   */
  lemma MuCodesInOrder(c: Code, d: Code)
    requires c < d
    ensures d < 128 ==> MuDecode(c) < MuDecode(d) <= 0
    ensures c >= 128 ==> MuDecode(c) > MuDecode(d) >= 0
  {
    hide Cell, Shift, High, MuDecode;
    var m, n := 255 - d, 255 - c;
    MuDecodeByHigh(c);
    MuDecodeByHigh(d);
    if d < 128 || c >= 128 {
      OctetsInOrder(m, n);
      CellsInOrder(High(m) + 5, m % 16, High(n) + 5, n % 16);
      LeastCell(High(m) + 5, m % 16);
    }
  }

  lemma LeastCell(p: int, l: nat)
    requires 5 <= p <= 12 && l < 16
    ensures Cell(p, l) >= 33
  {
    if p > 5 {
      LargerShift(5, p);
    }
  }

  // ---------- A-law ----------

  const ALAW_MAX := 0xFFF

  // `c ^ 0x55`, half an octet at a time.
  function Toggle(c: Code): (t: Code)
  {
    Half(c / 16) * 16 + Half(c % 16)
  }

  // `h ^ 5`
  function Half(h: int): (t: int)
    requires 0 <= h < 16
    ensures 0 <= t < 16
  {
    match h
    case 0 => 5 case 1 => 4 case 2 => 7 case 3 => 6 case 4 => 1 case 5 => 0 case 6 => 3 case 7 => 2
    case 8 => 13 case 9 => 12 case 10 => 15 case 11 => 14 case 12 => 9 case 13 => 8 case 14 => 11 case 15 => 10
  }

  function AMagnitude(x: Sample): int {
    var a: int := x;
    var n: int := if a < 0 then Wrap16(-a) as int else a;
    if n > ALAW_MAX then ALAW_MAX else n
  }

  function AEncode(x: Sample): Code {
    var n := AMagnitude(x);
    var position := TopBit(n, 11);
    Toggle(Fields(SignBit(x < 0), position - 4, Nibble(n, if position == 4 then 1 else position - 4)))
  }

  method ALaw_Encode(x: Sample) returns (c: Code)
    ensures c == AEncode(x)
  {
    hide TopBit, Toggle, Nibble, Fields, Shift;
    SomeShifts();
    var number: int := x;
    var sign := 0;
    if number < 0 {
      number := Wrap16(-number);
      sign := 0x80;
    }
    if number > ALAW_MAX {
      number := ALAW_MAX;
    }
    var position := ScanDown(number, 0x800, 11);
    var lsb := Nibble(number, if position == 4 then 1 else position - 4);
    c := Toggle(Fields(sign, position - 4, lsb));
  }

  function AValue(position: int, lsb: nat): int
    requires 4 <= position <= 11 && lsb < 16
  {
    if position != 4 then Cell(position, lsb) else lsb * 2 + 1
  }

  function ADecode(c: Code): Sample {
    var n := Toggle(c);
    var decoded := AValue(n % 128 / 16 + 4, n % 16);
    if n >= 128 then -decoded else decoded
  }

  function ARoundTrip(x: Sample): Sample {
    ADecode(AEncode(x))
  }

  lemma ToggleTwice(c: Code)
    ensures Toggle(Toggle(c)) == c
  {
    assert Half(Half(c / 16)) == c / 16;
    assert Half(Half(c % 16)) == c % 16;
  }

  lemma ADecodeOfFields(negative: bool, p: int, l: nat)
    requires 4 <= p <= 11 && l < 16
    ensures var f := Fields(SignBit(negative), p - 4, l);
            ADecode(Toggle(f)) == if negative then -AValue(p, l) else AValue(p, l)
  {
    ToggleTwice(Fields(SignBit(negative), p - 4, l));
    FieldsAreDisjoint(Fields(SignBit(negative), p - 4, l), SignBit(negative), p - 4, l);
  }

  lemma ATopBit(n: int)
    requires 0 <= n <= ALAW_MAX
    ensures var p := TopBit(n, 11);
            if n < 32 then p == 4 else 5 <= p <= 11 && Shift(p) <= n < 2 * Shift(p) && p == TopBit(n, 12)
  {
    if n < 32 {
      SmallHasNoTopBit(n, 11);
    } else {
      TopBitBounds(n, 11);
      SegmentIsUnique(n, TopBit(n, 11));
    }
  }

  lemma {:induction false} SmallHasNoTopBit(n: int, position: int)
    requires 0 <= n < 32 && 4 <= position <= 11
    ensures TopBit(n, position) == 4
  {
    if position > 4 {
      assert Shift(position) >= 32;
      TopBitSet(n, position);
      SmallHasNoTopBit(n, position - 1);
    }
  }

  function AMiddle(n: int): int
    requires 0 <= n <= ALAW_MAX
  {
    if n < 32 then n - n % 2 + 1 else Middle(n)
  }

  lemma AMagnitudeClips(x: Sample)
    requires x != -0x8000
    ensures AMagnitude(x) == if Abs(x) <= ALAW_MAX then Abs(x) else ALAW_MAX
  {
  }

  lemma HalfNibble(n: int)
    requires 0 <= n < 32
    ensures Nibble(n, 1) == n / 2
  {
  }

  lemma ARoundTripIsMiddle(x: Sample)
    requires x != -0x8000
    ensures var n := if Abs(x) <= ALAW_MAX then Abs(x) else ALAW_MAX;
            ARoundTrip(x) == if x < 0 then -AMiddle(n) else AMiddle(n)
  {
    hide Cell, AEncode, ADecode, AMagnitude, TopBit, Nibble, Toggle, Fields, Shift;
    var n := AMagnitude(x);
    AMagnitudeClips(x);
    var p := TopBit(n, 11);
    ATopBit(n);
    if p == 4 {
      HalfNibble(n);
      AEncodeToFields(x, n, 4, n / 2);
      ADecodeOfFields(x < 0, 4, n / 2);
    } else {
      AEncodeToFields(x, n, p, Nibble(n, p - 4));
      ADecodeOfFields(x < 0, p, Nibble(n, p - 4));
      CellFromNibble(n, p);
    }
  }

  /** The error of A-law is at most 1 below 32, and at most half a cell of the sample's segment above. */
  lemma AErrorBound(x: Sample)
    requires Abs(x) <= ALAW_MAX
    ensures var e := Abs(ARoundTrip(x) - x);
            if Abs(x) < 32 then e <= 1
            else var k := TopBit(Abs(x), 12); 5 <= k <= 12 && Shift(k) <= Abs(x) < 2 * Shift(k) && e <= Shift(k - 5)
  {
    hide ARoundTrip;
    ARoundTripIsMiddle(x);
    if Abs(x) >= 32 {
      TopBitBounds(Abs(x), 12);
      MiddleIsClose(Abs(x));
    }
  }

  lemma AMiddleIsMonotone(m: int, n: int)
    requires 0 <= m <= n <= ALAW_MAX
    ensures 1 <= AMiddle(m) <= AMiddle(n)
  {
    if m >= 32 {
      MiddleIsMonotone(m, n);
      MiddleIsClose(m);
    } else if n >= 32 {
      MiddleIsClose(n);
    }
  }

  lemma AIsMonotone(x: Sample, y: Sample)
    requires -0x8000 < x <= y
    ensures ARoundTrip(x) <= ARoundTrip(y)
  {
    hide ARoundTrip;
    ARoundTripIsMiddle(x);
    ARoundTripIsMiddle(y);
    var m := if Abs(x) <= ALAW_MAX then Abs(x) else ALAW_MAX;
    var n := if Abs(y) <= ALAW_MAX then Abs(y) else ALAW_MAX;
    if m <= n { AMiddleIsMonotone(m, n); } else { AMiddleIsMonotone(n, m); }
  }

  lemma MiddleAtTheTop(n: int)
    requires 3968 <= n <= ALAW_MAX
    ensures Middle(n) == 4032
  {
    SegmentIsUnique(n, 11);
    assert n % 128 == n - 3968;
  }

  lemma MostNegative()
    ensures ARoundTrip(-0x8000) == -1
  {
    NoTopBit(-0x8000, 11);
    assert Nibble(-0x8000, 1) == 0;
    AEncodeToFields(-0x8000, -0x8000, 4, 0);
    ADecodeOfFields(true, 4, 0);
  }

  /** A-law clips at 4032, except that the most negative sample comes out as -1. */
  lemma AClips(x: Sample)
    requires Abs(x) >= 3968
    ensures ARoundTrip(x) == if x == -0x8000 then -1 else if x < 0 then -4032 else 4032
  {
    hide ARoundTrip;
    if x == -0x8000 {
      MostNegative();
    } else {
      ARoundTripIsMiddle(x);
      MiddleAtTheTop(if Abs(x) <= ALAW_MAX then Abs(x) else ALAW_MAX);
    }
  }

  /** Every A-law code survives decoding and encoding. */
  lemma ACodesSurvive(c: Code)
    ensures AEncode(ADecode(c)) == c
  {
    hide AEncode, ADecode, AMagnitude;
    var f := Toggle(c);
    var p, l := f % 128 / 16 + 4, f % 16;
    var n := AValue(p, l);
    ToggleTwice(c);
    FieldsOfOctet(f);
    ADecodeOfFields(f >= 128, p, l);
    ADecodeMagnitude(f >= 128, p, l);
    if p == 4 {
      SmallHasNoTopBit(n, 11);
      NibbleOfOdd(l);
    } else {
      NibbleOfCell(p, l);
      ATopBit(n);
      SegmentIsUnique(n, p);
    }
    AEncodeToFields(ADecode(c), n, p, l);
  }

  lemma NibbleOfOdd(l: nat)
    requires l < 16
    ensures Nibble(l * 2 + 1, 1) == l
  {
  }

  lemma ADecodeMagnitude(negative: bool, p: int, l: nat)
    requires 4 <= p <= 11 && l < 16
    ensures var x := if negative then -AValue(p, l) else AValue(p, l);
            1 <= AValue(p, l) <= ALAW_MAX && AMagnitude(x) == AValue(p, l)
  {
    if p > 4 {
      assert 2 * Shift(p) <= 0x1000;
    }
  }

  lemma AEncodeToFields(x: Sample, n: int, p: int, l: nat)
    requires n == AMagnitude(x) && p == TopBit(n, 11)
    requires l == Nibble(n, if p == 4 then 1 else p - 4)
    ensures AEncode(x) == Toggle(Fields(SignBit(x < 0), p - 4, l))
  {
  }

  // Two values of the decoder, in order of position and low bits.
  lemma AValuesInOrder(p: int, l: nat, q: int, k: nat)
    requires 4 <= p <= q <= 11 && l < 16 && k < 16 && (p < q || l < k)
    ensures 0 < AValue(p, l) < AValue(q, k)
  {
    hide Cell, Shift;
    if p > 4 {
      CellsInOrder(p, l, q, k);
      LeastCell(p, l);
    } else if q > 4 {
      LeastCell(q, k);
    }
  }

  /**
   Codes, once toggled, decode in strict order: upwards below 0x80 from the least positive value, and downwards
   above.
   */
  lemma ACodesInOrder(f: Code, g: Code)
    requires f < g
    ensures g < 128 ==> 0 < ADecode(Toggle(f)) < ADecode(Toggle(g))
    ensures f >= 128 ==> 0 > ADecode(Toggle(f)) > ADecode(Toggle(g))
  {
    hide AValue, Toggle, High, ADecode;
    ADecodeByHigh(f);
    ADecodeByHigh(g);
    if g < 128 || f >= 128 {
      OctetsInOrder(f, g);
      AValuesInOrder(High(f) + 4, f % 16, High(g) + 4, g % 16);
    }
  }

  lemma ADecodeByHigh(f: Code)
    ensures var v := AValue(High(f) + 4, f % 16);
            ADecode(Toggle(f)) == if f >= 128 then -v else v
  {
    hide AValue;
    ToggleTwice(f);
  }

  /** Toggling is an exclusive or with 5 of each half of the code, so with 0x55 of the whole. */
  lemma ToggleIsXor(c: Code)
    ensures Toggle(c) / 16 == Half(c / 16) && Toggle(c) % 16 == Half(c % 16)
    ensures Half(c / 16) as bv4 == (c / 16) as bv4 ^ 5
    ensures Half(c % 16) as bv4 == (c % 16) as bv4 ^ 5
  {
    HalfIsXor(c / 16);
    HalfIsXor(c % 16);
  }

  lemma HalfIsXor(h: int)
    requires 0 <= h < 16
    ensures Half(h) as bv4 == h as bv4 ^ 5
  {
    match h
    case 0 => case 1 => case 2 => case 3 => case 4 => case 5 => case 6 => case 7 =>
    case 8 => case 9 => case 10 => case 11 => case 12 => case 13 => case 14 => case 15 =>
  }

  // ---------- Frames ----------

  function MuFrame(frame: seq<Sample>): (coded: seq<Code>)
    ensures |coded| == |frame|
  {
    if frame == [] then []
    else
      var n := |frame| - 1;
      MuFrame(frame[..n]) + [MuEncode(frame[n])]
  }

  function MuFrameBack(coded: seq<Code>): (frame: seq<Sample>)
    ensures |frame| == |coded|
  {
    if coded == [] then []
    else
      var n := |coded| - 1;
      MuFrameBack(coded[..n]) + [MuDecode(coded[n])]
  }

  lemma MuFrameAppend(frame: seq<Sample>, x: Sample)
    ensures MuFrame(frame + [x]) == MuFrame(frame) + [MuEncode(x)]
  {
    assert (frame + [x])[..|frame|] == frame;
  }

  lemma MuFrameBackAppend(coded: seq<Code>, c: Code)
    ensures MuFrameBack(coded + [c]) == MuFrameBack(coded) + [MuDecode(c)]
  {
    assert (coded + [c])[..|coded|] == coded;
  }

  /** A frame of any length comes back sample by sample. */
  lemma {:induction false} MuFrameRoundTrip(frame: seq<Sample>, k: nat)
    requires k < |frame|
    ensures MuFrameBack(MuFrame(frame))[k] == MuRoundTrip(frame[k])
  {
    hide MuEncode, MuDecode;
    var n := |frame| - 1;
    MuFrameBackAppend(MuFrame(frame[..n]), MuEncode(frame[n]));
    if k < n {
      MuFrameRoundTrip(frame[..n], k);
    }
  }
}
