/** Stateless IPv6 prefix translation (internal/plumbing/nptv6/nptv6.go), after RFC
    6296. Addresses are sixteen bytes; the adjustment goes into the fourth 16-bit
    word. */
module Nptv6 {
  import opened Common

  type Byte = n: nat | n < 256
  type Word = n: nat | n < 65536
  type Address = a: seq<Byte> | |a| == 16 witness seq(16, _ => 0)

  const MAX_PREFIX := 48

  // ---- One's-complement arithmetic

  /** The one's-complement value of a sum: zero only for zero, and otherwise the
      representative from 1 to 65535. */
  function Reduce(n: nat): Word {
    if n == 0 then 0 else (n - 1) % 65535 + 1
  }

  lemma ReduceFold(n: nat)
    requires n >= 65536
    ensures Reduce(n % 65536 + n / 65536) == Reduce(n) && 0 < n % 65536 + n / 65536 < n
  {
    var q, r := n / 65536, n % 65536;
    assert n - 1 == (q + r - 1) + q * 65535;
    AddMultiple(q + r - 1, q);
  }

  lemma {:induction false} AddMultiple(a: nat, k: nat)
    ensures (a + k * 65535) % 65535 == a % 65535
  {
    if k > 0 {
      AddMultiple(a, k - 1);
      assert a + k * 65535 == (a + (k - 1) * 65535) + 65535;
    }
  }

  /** Folds the carries back in until the sum fits a word. */
  method Fold(n: nat) returns (r: Word)
    ensures r == Reduce(n)
  {
    var sum := n;
    while sum >= 65536
      invariant Reduce(sum) == Reduce(n)
    {
      ReduceFold(sum);
      sum := sum % 65536 + sum / 65536;
    }
    r := sum;
  }

  function Complement(a: Word): Word {
    65535 - a
  }

  function Add(a: Word, b: Word): Word {
    Reduce(a + b)
  }

  method OnesComplementAdd(a: Word, b: Word) returns (r: Word)
    ensures r == Add(a, b)
  {
    r := Fold(a + b);
  }

  /** Subtracting what was added gives the word back, except that zero comes back as
      its other representation. */
  lemma AddSubtract(w: Word, a: Word)
    ensures Add(Add(w, a), Complement(a)) == if w == 0 then 65535 else w
  {
  }

  predicate Off(a: int, b: int, k: int) {
    a == b + 65535 * k
  }

  /** Equal as one's-complement sums: a multiple of 0xFFFF apart. */
  ghost predicate Congruent(a: int, b: int) {
    exists k: int :: Off(a, b, k)
  }

  lemma ReduceCongruent(n: nat)
    ensures Congruent(Reduce(n), n)
  {
    assert Off(Reduce(n), n, if n == 0 then 0 else -((n - 1) / 65535));
  }

  lemma CongruentSum(a: int, b: int, c: int, d: int)
    requires Congruent(a, b) && Congruent(c, d)
    ensures Congruent(a + c, b + d) && Congruent(a - c, b - d)
  {
    var k :| Off(a, b, k);
    var l :| Off(c, d, l);
    assert Off(a + c, b + d, k + l) && Off(a - c, b - d, k - l);
  }

  // ---- Prefix bits

  /** The weight of the lowest of a byte's first bits bits. */
  function Weight(bits: nat): (w: nat)
    requires bits <= 8
    ensures 1 <= w <= 256 && (bits > 0 ==> w <= 128)
  {
    [256, 128, 64, 32, 16, 8, 4, 2, 1][bits]
  }

  function Pow2(n: nat): nat {
    if n == 0 then 1 else 2 * Pow2(n - 1)
  }

  lemma WeightExactly(bits: nat)
    requires bits <= 8
    ensures Weight(bits) * Pow2(bits) == 256
  {
    assert Pow2(2) == 4 && Pow2(4) == 16 && Pow2(6) == 64;
  }

  /** How many bits of byte i a prefix covers. */
  function Covered(length: nat, i: nat): (bits: nat)
    ensures bits <= 8
  {
    if length <= 8 * i then 0 else if length >= 8 * i + 8 then 8 else length - 8 * i
  }

  /** A byte with its first bits from one byte and the rest from another. */
  function SpliceByte(first: Byte, rest: Byte, bits: nat): Byte
    requires bits <= 8
  {
    first / Weight(bits) * Weight(bits) + rest % Weight(bits)
  }

  function Splice(first: Address, rest: Address, length: nat): Address {
    seq(16, i requires 0 <= i < 16 => SpliceByte(first[i], rest[i], Covered(length, i)))
  }

  /** Overwrites dst's first length bits with src's, in place. */
  method CopyPrefixBits(dst: array<Byte>, src: Address, length: nat)
    requires dst.Length == 16 && length <= 128
    modifies dst
    ensures dst[..] == Splice(src, old(dst[..]), length)
  {
    var full := length / 8;
    for i := 0 to full
      invariant forall j | 0 <= j < i :: dst[j] == src[j]
      invariant forall j | i <= j < 16 :: dst[j] == old(dst[j])
    {
      dst[i] := src[i];
    }
    var rem := length % 8;
    if rem != 0 {
      dst[full] := SpliceByte(src[full], dst[full], rem);
    }
    forall i | 0 <= i < 16
      ensures dst[i] == SpliceByte(src[i], old(dst[i]), Covered(length, i))
    {
      SpliceEnds(src[i], old(dst[i]));
    }
  }

  lemma SpliceEnds(first: Byte, rest: Byte)
    ensures SpliceByte(first, rest, 8) == first && SpliceByte(first, rest, 0) == rest
  {
  }

  /** The prefix holds the address. */
  predicate Contains(prefix: Address, length: nat, a: Address) {
    forall i | 0 <= i < 16 :: a[i] / Weight(Covered(length, i)) == prefix[i] / Weight(Covered(length, i))
  }

  /** A parsed prefix has no bit past its length. */
  predicate Padded(prefix: Address, length: nat) {
    forall i | 0 <= i < 16 :: prefix[i] % Weight(Covered(length, i)) == 0
  }

  lemma SpliceContained(prefix: Address, a: Address, length: nat)
    ensures Contains(prefix, length, Splice(prefix, a, length))
    ensures Contains(prefix, length, a) ==> Splice(prefix, a, length) == a
  {
    forall i | 0 <= i < 16
      ensures Splice(prefix, a, length)[i] / Weight(Covered(length, i)) == prefix[i] / Weight(Covered(length, i))
    {
      SpliceByteDivides(prefix[i], a[i], Covered(length, i));
    }
  }

  lemma SpliceByteDivides(first: Byte, rest: Byte, bits: nat)
    requires bits <= 8
    ensures SpliceByte(first, rest, bits) / Weight(bits) == first / Weight(bits)
    ensures SpliceByte(first, rest, bits) % Weight(bits) == rest % Weight(bits)
  {
  }

  lemma SpliceTwice(first: Address, second: Address, a: Address, length: nat)
    ensures Splice(first, Splice(second, a, length), length) == Splice(first, a, length)
  {
    forall i | 0 <= i < 16
      ensures Splice(first, Splice(second, a, length), length)[i] == Splice(first, a, length)[i]
    {
      SpliceByteDivides(second[i], a[i], Covered(length, i));
    }
  }

  // ---- The same, bit by bit

  /** A byte's k-th bit, the highest first. */
  function BitOf(b: Byte, k: nat): nat
    requires k < 8
  {
    b / Weight(k + 1) % 2
  }

  function Bit(a: Address, i: nat): nat
    requires i < 128
  {
    BitOf(a[i / 8], i % 8)
  }

  /** One more bit covered. */
  lemma TopBits(b: Byte, k: nat)
    requires k < 8
    ensures b / Weight(k + 1) == 2 * (b / Weight(k)) + BitOf(b, k)
  {
  }

  lemma {:induction false} SameTop(x: Byte, y: Byte, bits: nat)
    requires bits <= 8
    ensures x / Weight(bits) == y / Weight(bits) <==> forall k | 0 <= k < bits :: BitOf(x, k) == BitOf(y, k)
  {
    if bits > 0 {
      SameTop(x, y, bits - 1);
      TopBits(x, bits - 1);
      TopBits(y, bits - 1);
    }
  }

  ghost predicate SameBits(x: Address, y: Address, length: nat)
    requires length <= 128
  {
    forall i | 0 <= i < length :: Bit(x, i) == Bit(y, i)
  }

  lemma BitAt(a: Address, j: nat, k: nat)
    requires j < 16 && k < 8
    ensures Bit(a, 8 * j + k) == BitOf(a[j], k)
  {
    assert (8 * j + k) / 8 == j && (8 * j + k) % 8 == k;
  }

  lemma SameByte(x: Address, y: Address, length: nat, j: nat)
    requires length <= 128 && j < 16 && SameBits(x, y, length)
    ensures x[j] / Weight(Covered(length, j)) == y[j] / Weight(Covered(length, j))
  {
    forall k | 0 <= k < Covered(length, j)
      ensures BitOf(x[j], k) == BitOf(y[j], k)
    {
      BitAt(x, j, k);
      BitAt(y, j, k);
    }
    SameTop(x[j], y[j], Covered(length, j));
  }

  lemma SameBit(x: Address, y: Address, length: nat, i: nat)
    requires i < length <= 128
    requires x[i / 8] / Weight(Covered(length, i / 8)) == y[i / 8] / Weight(Covered(length, i / 8))
    ensures Bit(x, i) == Bit(y, i)
  {
    assert i % 8 < Covered(length, i / 8);
    SameTop(x[i / 8], y[i / 8], Covered(length, i / 8));
  }

  /** A prefix holds exactly the addresses that agree with it on its first bits. */
  lemma ContainsExactly(prefix: Address, length: nat, a: Address)
    requires length <= 128
    ensures Contains(prefix, length, a) <==> SameBits(a, prefix, length)
  {
    if Contains(prefix, length, a) {
      forall i | 0 <= i < length
        ensures Bit(a, i) == Bit(prefix, i)
      {
        SameBit(a, prefix, length, i);
      }
    }
    if SameBits(a, prefix, length) {
      forall j | 0 <= j < 16
        ensures a[j] / Weight(Covered(length, j)) == prefix[j] / Weight(Covered(length, j))
      {
        SameByte(a, prefix, length, j);
      }
    }
  }

  // ---- Translation

  /** NotIPv6 is a prefix whose mask is not one of 128 bits. */
  datatype Prefix = Missing | NotIPv6 | IPv6(ip: Address, length: nat)

  datatype Mapping = Mapping(ula: Prefix, public: Prefix)

  /** Both prefixes of a mapping, with the length they share. */
  datatype Pair = Pair(ula: Address, public: Address, length: nat)

  predicate Supported(m: Mapping) {
    m.ula.IPv6? && m.public.IPv6? && m.ula.length == m.public.length <= MAX_PREFIX
  }

  function PairOf(m: Mapping): Pair
    requires Supported(m)
  {
    Pair(m.ula.ip, m.public.ip, m.ula.length)
  }

  method PrefixLen(m: Mapping) returns (r: Option<nat>)
    ensures r.Some? <==> Supported(m)
    ensures r.Some? ==> r.value == m.ula.length == m.public.length
  {
    if m.ula.Missing? || m.public.Missing? {
      return None;
    }
    if !m.ula.IPv6? || !m.public.IPv6? {
      return None;
    }
    if m.ula.length != m.public.length || m.ula.length > MAX_PREFIX {
      return None;
    }
    return Some(m.ula.length);
  }

  ghost predicate Valid(p: Pair) {
    p.length <= MAX_PREFIX && Padded(p.ula, p.length) && Padded(p.public, p.length)
  }

  /** Prefixes as the parser yields them. */
  ghost predicate Parsed(m: Mapping) {
    && (m.ula.IPv6? ==> Padded(m.ula.ip, m.ula.length))
    && (m.public.IPv6? ==> Padded(m.public.ip, m.public.length))
  }

  /** An IPv4 address in sixteen bytes. */
  predicate Mapped(a: Address) {
    (forall i | 0 <= i < 10 :: a[i] == 0) && a[10] == a[11] == 255
  }

  function Join(high: Byte, low: Byte): Word {
    var h: int, l: int := high, low;
    256 * h + l
  }

  function WordAt(a: Address, i: nat): Word
    requires i < 8
  {
    Join(a[2 * i], a[2 * i + 1])
  }

  /** The sum of the first 48 bits' words. */
  function PrefixSum(a: Address): nat {
    WordAt(a, 0) + WordAt(a, 1) + WordAt(a, 2)
  }

  /** The one's-complement sum's plain form, over all words. */
  function WordSum(a: Address): nat {
    PrefixSum(a) + WordAt(a, 3) + WordAt(a, 4) + WordAt(a, 5) + WordAt(a, 6) + WordAt(a, 7)
  }

  method PrefixChecksum(prefix: Address) returns (c: Word)
    ensures c == Complement(Reduce(PrefixSum(prefix)))
  {
    var sum := 0;
    for i := 0 to 3
      invariant sum == (if i > 0 then WordAt(prefix, 0) else 0) + (if i > 1 then WordAt(prefix, 1) else 0)
                       + (if i > 2 then WordAt(prefix, 2) else 0)
    {
      sum := sum + WordAt(prefix, i);
    }
    var r := Fold(sum);
    c := Complement(r);
  }

  /** The public prefix's checksum less the internal one's. */
  function Adjustment(p: Pair): Word {
    Add(Complement(Reduce(PrefixSum(p.public))), Reduce(PrefixSum(p.ula)))
  }

  method AdjustmentOf(m: Mapping) returns (r: Option<Word>)
    ensures r == if Supported(m) then Some(Adjustment(PairOf(m))) else None
  {
    var length := PrefixLen(m);
    if length.None? {
      return None;
    }
    var internal := PrefixChecksum(m.ula.ip);
    var external := PrefixChecksum(m.public.ip);
    var adjustment := OnesComplementAdd(external, Complement(internal));
    return Some(adjustment);
  }

  function WithWord3(a: Address, w: Word): Address {
    a[6 := w / 256][7 := w % 256]
  }

  function From(p: Pair, outbound: bool): Address {
    if outbound then p.ula else p.public
  }

  function Delta(p: Pair, outbound: bool): Word {
    if outbound then Adjustment(p) else Complement(Adjustment(p))
  }

  /** The prefix overwritten, and the fourth word adjusted. */
  function Rewritten(to: Address, a: Address, length: nat, delta: Word): Address {
    var r := Splice(to, a, length);
    WithWord3(r, Add(WordAt(r, 3), delta))
  }

  function Translated(p: Pair, a: Address, outbound: bool): Address {
    Rewritten(From(p, !outbound), a, p.length, Delta(p, outbound))
  }

  /** An IPv6 address inside the prefix it comes from. */
  predicate Within(p: Pair, a: Address, outbound: bool) {
    !Mapped(a) && !Mapped(From(p, outbound)) && Contains(From(p, outbound), p.length, a)
  }

  predicate Accepts(m: Mapping, addr: seq<Byte>, outbound: bool) {
    Supported(m) && |addr| == 16 && Within(PairOf(m), addr, outbound)
  }

  /** Refuses prefixes that are missing, not IPv6, of different lengths or too long,
      an IPv4 address in either form, and one outside the prefix it comes from. */
  method Translate(m: Mapping, addr: seq<Byte>, outbound: bool) returns (r: Option<Address>)
    ensures r.Some? <==> Accepts(m, addr, outbound)
    ensures r.Some? ==> r.value == Translated(PairOf(m), addr, outbound)
  {
    var length := PrefixLen(m);
    if length.None? || |addr| != 16 || Mapped(addr) {
      return None;
    }
    var from, to := m.public.ip, m.ula.ip;
    if outbound {
      from, to := m.ula.ip, m.public.ip;
    }
    if Mapped(from) || !Contains(from, length.value, addr) {
      return None;
    }
    var bytes := new Byte[16](i requires 0 <= i < 16 => addr[i]);
    assert bytes[..] == addr;
    CopyPrefixBits(bytes, to, length.value);
    var adjustment := AdjustmentOf(m);
    var delta := if outbound then adjustment.value else Complement(adjustment.value);
    var word := OnesComplementAdd(Join(bytes[6], bytes[7]), delta);
    bytes[6], bytes[7] := word / 256, word % 256;
    return Some(bytes[..]);
  }

  // ---- Checksum neutrality

  /** Byte by byte, translation changes a contained address by what the prefixes
      differ. */
  lemma ByteDifference(to: Byte, from: Byte, a: Byte, bits: nat)
    requires bits <= 8 && to % Weight(bits) == 0 && from % Weight(bits) == 0
    requires a / Weight(bits) == from / Weight(bits)
    ensures var spliced: int, was: int, t: int, f: int := SpliceByte(to, a, bits), a, to, from; spliced - was == t - f
  {
  }

  lemma PrefixDifference(to: Address, from: Address, a: Address, length: nat)
    requires Padded(to, length) && Padded(from, length) && Contains(from, length, a)
    ensures PrefixSum(Splice(to, a, length)) - PrefixSum(a) == PrefixSum(to) - PrefixSum(from)
  {
    forall i | 0 <= i < 6
      ensures var x: int, y: int, t: int, f: int := Splice(to, a, length)[i], a[i], to[i], from[i]; x - y == t - f
    {
      ByteDifference(to[i], from[i], a[i], Covered(length, i));
    }
  }

  lemma HostWordsKept(first: Address, a: Address, length: nat)
    requires length <= MAX_PREFIX
    ensures forall i | 6 <= i < 16 :: Splice(first, a, length)[i] == a[i]
  {
    forall i | 6 <= i < 16
      ensures Splice(first, a, length)[i] == a[i]
    {
      SpliceEnds(first[i], a[i]);
    }
  }

  lemma SumDifference(to: Address, from: Address, a: Address, length: nat)
    requires length <= MAX_PREFIX && Padded(to, length) && Padded(from, length) && Contains(from, length, a)
    ensures WordSum(Splice(to, a, length)) - WordSum(a) == PrefixSum(to) - PrefixSum(from)
  {
    PrefixDifference(to, from, a, length);
    HostWordsKept(to, a, length);
  }

  /** The adjustment between two sums, from their one's-complement values. */
  lemma AdjustmentCongruent(u: nat, p: nat)
    ensures var adjustment := Add(Complement(Reduce(p)), Reduce(u));
            Congruent(adjustment, u - p) && Congruent(Complement(adjustment), p - u)
  {
    var ru: int, rp: int := Reduce(u), Reduce(p);
    var sum := Complement(Reduce(p)) + Reduce(u);
    var adjustment: int := Reduce(sum);
    ReduceCongruent(u);
    ReduceCongruent(p);
    CongruentSum(ru, u, rp, p);
    ReduceCongruent(sum);
    var k :| Off(ru - rp, u - p, k);
    var l :| Off(adjustment, sum, l);
    assert Off(adjustment, u - p, k + l + 1) && Off(65535 - adjustment, p - u, -k - l);
  }

  lemma DeltaCongruent(p: Pair, outbound: bool)
    ensures Congruent(Delta(p, outbound), PrefixSum(From(p, outbound)) - PrefixSum(From(p, !outbound)))
  {
    AdjustmentCongruent(PrefixSum(p.ula), PrefixSum(p.public));
  }

  /** The change of the prefix words and the change of the fourth cancel. */
  lemma Cancels(was: int, spliced: int, is_: int, word: int, newWord: int, delta: int, to: int, from: int)
    requires spliced - was == to - from && is_ == spliced - word + newWord
    requires Congruent(newWord, word + delta) && Congruent(delta, from - to)
    ensures Congruent(is_, was)
  {
    var k :| Off(newWord, word + delta, k);
    var l :| Off(delta, from - to, l);
    assert Off(is_, was, k + l);
  }

  lemma WordsOf(a: Address, w: Word)
    ensures WordAt(WithWord3(a, w), 3) == w
    ensures WordSum(WithWord3(a, w)) == WordSum(a) - WordAt(a, 3) + w
    ensures WithWord3(a, WordAt(a, 3)) == a
  {
  }

  lemma Adjusted(r: Address, delta: Word, was: int, to: int, from: int)
    requires WordSum(r) - was == to - from && Congruent(delta, from - to)
    ensures Congruent(WordSum(WithWord3(r, Add(WordAt(r, 3), delta))), was)
  {
    var word := WordAt(r, 3);
    var w := Add(word, delta);
    WordsOf(r, w);
    ReduceCongruent(word + delta);
    Cancels(was, WordSum(r), WordSum(WithWord3(r, w)), word, w, delta, to, from);
  }

  lemma NeutralPair(p: Pair, a: Address, outbound: bool)
    requires Valid(p) && Contains(From(p, outbound), p.length, a)
    ensures Congruent(WordSum(Translated(p, a, outbound)), WordSum(a))
  {
    var to, from := From(p, !outbound), From(p, outbound);
    SumDifference(to, from, a, p.length);
    DeltaCongruent(p, outbound);
    Adjusted(Splice(to, a, p.length), Delta(p, outbound), WordSum(a), PrefixSum(to), PrefixSum(from));
  }

  /** A transport checksum over the address stays right without being touched. */
  lemma ChecksumNeutral(m: Mapping, a: seq<Byte>, outbound: bool)
    requires Parsed(m) && Accepts(m, a, outbound)
    ensures Congruent(WordSum(Translated(PairOf(m), a, outbound)), WordSum(a))
  {
    NeutralPair(PairOf(m), a, outbound);
  }

  // ---- Round trip

  lemma SpliceUnderWord3(first: Address, a: Address, length: nat, w: Word)
    requires length <= MAX_PREFIX
    ensures Splice(first, WithWord3(a, w), length) == WithWord3(Splice(first, a, length), w)
  {
    HostWordsKept(first, a, length);
    HostWordsKept(first, WithWord3(a, w), length);
  }

  lemma ContainsUnderWord3(prefix: Address, a: Address, length: nat, w: Word)
    requires length <= MAX_PREFIX && Contains(prefix, length, a)
    ensures Contains(prefix, length, WithWord3(a, w))
  {
    forall i | 6 <= i < 8
      ensures WithWord3(a, w)[i] / Weight(Covered(length, i)) == prefix[i] / Weight(Covered(length, i))
    {
      assert Covered(length, i) == 0;
    }
  }

  predicate Zero48(a: Address) {
    forall i | 0 <= i < 6 :: a[i] == 0
  }

  lemma Zero48Exactly(a: Address)
    ensures PrefixSum(a) == 0 <==> Zero48(a)
  {
    assert WordAt(a, 0) == 0 <==> a[0] == a[1] == 0;
    assert WordAt(a, 1) == 0 <==> a[2] == a[3] == 0;
    assert WordAt(a, 2) == 0 <==> a[4] == a[5] == 0;
  }

  /** No adjustment towards a zero prefix means that both prefixes are zero. */
  lemma NoAdjustment(p: Pair, outbound: bool)
    requires PrefixSum(From(p, !outbound)) == 0 && Delta(p, outbound) == 0
    ensures PrefixSum(From(p, outbound)) == 0
  {
  }

  lemma PaddedZero(prefix: Address, length: nat, a: Address)
    requires Padded(prefix, length) && Contains(prefix, length, a) && Zero48(a)
    ensures Zero48(prefix)
  {
    forall i | 0 <= i < 6
      ensures prefix[i] == 0
    {
      ZeroByte(prefix[i], Weight(Covered(length, i)));
    }
  }

  lemma ZeroByte(b: Byte, w: nat)
    requires w > 0 && b % w == 0 && b / w == 0
    ensures b == 0
  {
  }

  lemma ContainedInZero(prefix: Address, length: nat, a: Address)
    requires length <= MAX_PREFIX && Zero48(prefix) && Contains(prefix, length, a)
    ensures forall other | Zero48(other) :: Splice(other, a, length) == a
  {
    forall other | Zero48(other)
      ensures Splice(other, a, length) == a
    {
      HostWordsKept(other, a, length);
      forall i | 0 <= i < 6
        ensures Splice(other, a, length)[i] == a[i]
      {
        SpliceByteDivides(prefix[i], a[i], Covered(length, i));
        assert other[i] == prefix[i];
      }
    }
  }

  /** A parsed prefix of a supported length is not an IPv4 one. */
  lemma PaddedNotMapped(prefix: Address, length: nat)
    requires length <= MAX_PREFIX && Padded(prefix, length)
    ensures !Mapped(prefix)
  {
    assert Covered(length, 10) == 0;
  }

  /** What the translation keeps. */
  lemma TranslatedShape(p: Pair, a: Address, outbound: bool)
    requires Valid(p)
    ensures var t := Translated(p, a, outbound);
            && Contains(From(p, !outbound), p.length, t)
            && WordAt(t, 3) == Add(WordAt(a, 3), Delta(p, outbound))
            && t == WithWord3(Splice(From(p, !outbound), a, p.length), WordAt(t, 3))
            && (forall i | 8 <= i < 16 :: t[i] == a[i])
  {
    var to := From(p, !outbound);
    var r := Splice(to, a, p.length);
    HostWordsKept(to, a, p.length);
    assert WordAt(r, 3) == WordAt(a, 3);
    var w := Add(WordAt(a, 3), Delta(p, outbound));
    SpliceContained(to, a, p.length);
    ContainsUnderWord3(to, r, p.length, w);
    WordsOf(r, w);
  }

  lemma AddZero(w: Word, delta: Word)
    ensures Add(w, delta) == 0 <==> w == 0 && delta == 0
  {
  }

  lemma MappedZero(a: Address)
    requires Mapped(a)
    ensures Zero48(a) && WordAt(a, 3) == 0
  {
  }

  lemma BothZero(p: Pair, outbound: bool)
    requires Zero48(From(p, !outbound)) && Delta(p, outbound) == 0
    ensures Zero48(p.ula) && Zero48(p.public)
  {
    Zero48Exactly(From(p, !outbound));
    NoAdjustment(p, outbound);
    Zero48Exactly(From(p, outbound));
  }

  lemma Unchanged(p: Pair, a: Address, outbound: bool)
    requires Valid(p) && Contains(From(p, outbound), p.length, a)
    requires Zero48(p.ula) && Zero48(p.public) && WordAt(a, 3) == 0 && Delta(p, outbound) == 0
    ensures Translated(p, a, outbound) == a
  {
    ContainedInZero(From(p, outbound), p.length, a);
    assert Splice(From(p, !outbound), a, p.length) == a;
    AddZero(0, 0);
    WordsOf(a, 0);
  }

  /** An IPv6 address never translates to one that reads as IPv4. */
  lemma StaysIPv6(p: Pair, a: Address, outbound: bool)
    requires Valid(p) && Within(p, a, outbound)
    ensures !Mapped(Translated(p, a, outbound))
  {
    var t := Translated(p, a, outbound);
    TranslatedShape(p, a, outbound);
    if Mapped(t) {
      MappedZero(t);
      AddZero(WordAt(a, 3), Delta(p, outbound));
      PaddedZero(From(p, !outbound), p.length, t);
      BothZero(p, outbound);
      Unchanged(p, a, outbound);
    }
  }

  /** Overwriting the prefix again undoes the first overwrite, past the fourth word. */
  lemma SpliceBack(to: Address, from: Address, a: Address, length: nat, w: Word)
    requires length <= MAX_PREFIX && Contains(from, length, a)
    ensures Splice(from, WithWord3(Splice(to, a, length), w), length) == WithWord3(a, w)
  {
    SpliceUnderWord3(from, Splice(to, a, length), length, w);
    SpliceTwice(from, to, a, length);
    SpliceContained(from, a, length);
  }

  lemma Word3Twice(a: Address, w: Word, v: Word)
    ensures WithWord3(WithWord3(a, w), v) == WithWord3(a, v)
  {
  }

  /** The fourth word a round trip gives back. */
  function Back(a: Address): Word {
    if WordAt(a, 3) == 0 then 65535 else WordAt(a, 3)
  }

  lemma RewrittenBack(to: Address, from: Address, a: Address, length: nat, delta: Word)
    requires length <= MAX_PREFIX && Contains(from, length, a)
    ensures Rewritten(from, Rewritten(to, a, length, delta), length, Complement(delta))
            == WithWord3(a, Back(a))
  {
    HostWordsKept(to, a, length);
    var w := Add(WordAt(a, 3), delta);
    assert Rewritten(to, a, length, delta) == WithWord3(Splice(to, a, length), w);
    SpliceBack(to, from, a, length, w);
    WordsOf(a, w);
    AddSubtract(WordAt(a, 3), delta);
    Word3Twice(a, w, Back(a));
  }

  lemma OtherWay(p: Pair, a: Address, outbound: bool)
    ensures Translated(p, a, !outbound) == Rewritten(From(p, outbound), a, p.length, Complement(Delta(p, outbound)))
  {
    assert Delta(p, !outbound) == Complement(Delta(p, outbound));
  }

  lemma BackSame(a: Address)
    ensures WithWord3(a, Back(a)) == a <==> WordAt(a, 3) != 0
  {
    WordsOf(a, Back(a));
  }

  lemma WithinBack(p: Pair, a: Address, outbound: bool)
    requires Valid(p) && Within(p, a, outbound)
    ensures Within(p, Translated(p, a, outbound), !outbound)
  {
    TranslatedShape(p, a, outbound);
    StaysIPv6(p, a, outbound);
    PaddedNotMapped(From(p, !outbound), p.length);
  }

  /** The translated address is accepted back. */
  lemma AcceptedBack(m: Mapping, a: Address, outbound: bool)
    requires Parsed(m) && Supported(m) && Within(PairOf(m), a, outbound)
    ensures Within(PairOf(m), Translated(PairOf(m), a, outbound), !outbound)
  {
    WithinBack(PairOf(m), a, outbound);
  }

  /** And gives the original address back exactly when its fourth word is not zero;
      a zero word comes back as 0xFFFF. */
  lemma RoundTripExactly(m: Mapping, a: seq<Byte>, outbound: bool)
    requires Parsed(m) && Accepts(m, a, outbound)
    ensures var back := Translated(PairOf(m), Translated(PairOf(m), a, outbound), !outbound);
            && back == WithWord3(a, Back(a))
            && (back == a <==> WordAt(a, 3) != 0)
  {
    var p := PairOf(m);
    OtherWay(p, Translated(p, a, outbound), outbound);
    RewrittenBack(From(p, !outbound), From(p, outbound), a, p.length, Delta(p, outbound));
    BackSame(a);
  }

  /** Two addresses that differ only in having 0 and 0xFFFF as their fourth word
      translate to the same address, unless the adjustment is zero. */
  lemma ZeroCollides(p: Pair, a: Address, outbound: bool)
    requires Valid(p) && WordAt(a, 3) == 0 && Delta(p, outbound) != 0
    ensures Translated(p, a, outbound) == Translated(p, WithWord3(a, 65535), outbound)
  {
    var to := From(p, !outbound);
    HostWordsKept(to, a, p.length);
    SpliceUnderWord3(to, a, p.length, 65535);
    var r := Splice(to, a, p.length);
    WordsOf(r, 65535);
    assert Add(0, Delta(p, outbound)) == Add(65535, Delta(p, outbound));
  }
}
