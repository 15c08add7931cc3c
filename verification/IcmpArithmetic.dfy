/** The arithmetic of the RTT tool: the Internet checksum of RFC 1071 and the time difference. */
module IcmpArithmetic {

  // ---- tv_sub and the recorded round-trip time ----

  class Timeval {
    var sec: int
    var usec: int

    constructor (sec: int, usec: int)
      ensures this.sec == sec && this.usec == usec
    {
      this.sec, this.usec := sec, usec;
    }

    function Micros(): int reads this { sec * 1000000 + usec }

    /** The kernel's normal form. */
    predicate Normal() reads this { 0 <= usec < 1000000 }
  }

  /** Subtracts in place; the result is in normal form even when it is negative. */
  method TvSub(out: Timeval, in_: Timeval)
    requires out.Normal() && in_.Normal() && out != in_
    modifies out
    ensures out.Normal() && out.Micros() == old(out.Micros()) - in_.Micros()
  {
    out.usec := out.usec - in_.usec;
    if out.usec < 0 {
      out.sec := out.sec - 1;
      out.usec := out.usec + 1000000;
    }
    out.sec := out.sec - in_.sec;
  }

  /** What procV4 and procV6 store: whole milliseconds, rounded down, so the stored value reads as
      "no reply" exactly when the clock went back by at most one millisecond in between. */
  method RoundTrip(received: Timeval, sent: Timeval) returns (rtt: int)
    requires received.Normal() && sent.Normal() && received != sent
    modifies received
    ensures rtt == (old(received.Micros()) - sent.Micros()) / 1000
    ensures rtt == -1 <==> 1 <= sent.Micros() - old(received.Micros()) <= 1000
  {
    TvSub(received, sent);
    rtt := received.sec * 1000 + received.usec / 1000;
  }

  // ---- the checksum ----

  type byte = b: int | 0 <= b < 256

  /** A 16-bit word of memory as the machine reads it. */
  function Word(big: bool, first: byte, second: byte): (w: int)
    ensures 0 <= w <= 0xffff
  {
    if big then first * 256 + second else second * 256 + first
  }

  /** The exact sum of the words of a buffer; an odd last byte is padded with a zero byte. */
  function WordSum(big: bool, buf: seq<byte>): nat
    decreases |buf|
  {
    if buf == [] then 0
    else if |buf| == 1 then Word(big, buf[0], 0)
    else Word(big, buf[0], buf[1]) + WordSum(big, buf[2..])
  }

  /** The words one by one, in either byte order; the padded byte is the first of its word. */
  lemma WordSumIs(x: byte, y: byte, rest: seq<byte>)
    ensures WordSum(true, [x, y] + rest) == 256 * x + y + WordSum(true, rest)
    ensures WordSum(false, [x, y] + rest) == x + 256 * y + WordSum(false, rest)
    ensures WordSum(true, [x]) == 256 * x && WordSum(false, [x]) == x && WordSum(true, []) == WordSum(false, []) == 0
  {
    assert ([x, y] + rest)[2..] == rest;
  }

  /** in_cksum's closing lines on a 32-bit sum: add the halves, add the carry, complement. */
  function Fold(sum: nat): nat { sum / 65536 + sum % 65536 }

  function Answer(sum: nat): int
    requires sum < 0x1_0000_0000
  {
    0xffff - Fold(Fold(sum)) % 65536
  }

  /** The loop of section 4.1 of RFC 1071: fold until there is no carry. */
  function FoldAll(sum: nat): nat
    decreases sum
  {
    if sum < 65536 then sum else FoldAll(Fold(sum))
  }

  function Cksum(big: bool, buf: seq<byte>): int { Answer(WordSum(big, buf) % 0x1_0000_0000) }

  lemma WrapOnce(a: nat, b: nat)
    ensures (a % 0x1_0000_0000 + b) % 0x1_0000_0000 == (a + b) % 0x1_0000_0000
  {
  }

  /** Up to `at`, the words have gone into the wrapping sum. */
  predicate SumLeft(big: bool, buf: seq<byte>, at: nat, sum: nat)
    requires at <= |buf|
  {
    sum < 0x1_0000_0000 && WordSum(big, buf) % 0x1_0000_0000 == (sum + WordSum(big, buf[at..])) % 0x1_0000_0000
  }

  lemma NextWord(big: bool, buf: seq<byte>, at: nat, sum: nat)
    requires at + 1 < |buf| && SumLeft(big, buf, at, sum)
    ensures SumLeft(big, buf, at + 2, (sum + Word(big, buf[at], buf[at + 1])) % 0x1_0000_0000)
  {
    var w, rest := Word(big, buf[at], buf[at + 1]), WordSum(big, buf[at + 2..]);
    assert buf[at..][2..] == buf[at + 2..];
    WrapOnce(sum + w, rest);
    assert sum + (w + rest) == (sum + w) + rest;
  }

  lemma LastByte(big: bool, buf: seq<byte>, at: nat, sum: nat)
    requires at < |buf| <= at + 1 && SumLeft(big, buf, at, sum)
    ensures WordSum(big, buf) % 0x1_0000_0000 == (sum + Word(big, buf[at], 0)) % 0x1_0000_0000
  {
    assert buf[at..] == [buf[at]];
  }

  lemma NoByte(big: bool, buf: seq<byte>, sum: nat)
    requires SumLeft(big, buf, |buf|, sum)
    ensures WordSum(big, buf) % 0x1_0000_0000 == sum
  {
    assert buf[|buf|..] == [];
  }

  /** The accumulation loop, with a 32-bit sum that wraps. */
  method SumWords(big: bool, buf: seq<byte>) returns (sum: nat)
    ensures sum == WordSum(big, buf) % 0x1_0000_0000
  {
    sum := 0;
    var at := 0;
    assert buf[0..] == buf;
    while |buf| - at > 1
      invariant 0 <= at <= |buf| && SumLeft(big, buf, at, sum)
    {
      NextWord(big, buf, at, sum);
      sum := (sum + Word(big, buf[at], buf[at + 1])) % 0x1_0000_0000;
      at := at + 2;
    }
    if |buf| - at == 1 {
      LastByte(big, buf, at, sum);
      sum := (sum + Word(big, buf[at], 0)) % 0x1_0000_0000;
    } else {
      NoByte(big, buf, sum);
    }
  }

  method InCksum(big: bool, buf: seq<byte>) returns (answer: int)
    ensures answer == Cksum(big, buf)
  {
    var sum := SumWords(big, buf);
    sum := sum / 65536 + sum % 65536;
    sum := sum + sum / 65536;
    answer := 0xffff - sum % 65536;
  }

  // ---- folding is reduction modulo 65535, with 65535 in place of 0 for positive sums ----

  function Residue(sum: nat): (r: nat)
    ensures r <= 0xffff && (r == 0 <==> sum == 0)
  {
    if sum == 0 then 0 else 1 + (sum - 1) % 65535
  }

  lemma ResidueUnique(sum: nat, r: nat, q: int)
    requires sum > 0 && 1 <= r <= 0xffff && sum == 65535 * q + r
    ensures Residue(sum) == r
  {
    assert (sum - 1) % 65535 == r - 1;
  }

  lemma FoldStep(sum: nat)
    ensures sum == Fold(sum) + 65535 * (sum / 65536)
    ensures sum >= 65536 ==> 0 < Fold(sum) < sum && FoldAll(sum) == FoldAll(Fold(sum))
  {
  }

  lemma {:induction false} FoldAllIsResidue(sum: nat)
    ensures FoldAll(sum) == Residue(sum)
    decreases sum
  {
    if sum < 65536 {
      if sum > 0 { ResidueUnique(sum, sum, 0); }
    } else {
      FoldStep(sum);
      var once := Fold(sum);
      FoldAllIsResidue(once);
      var q := (once - 1) / 65535;
      assert once == 65535 * q + Residue(once);
      ResidueUnique(sum, Residue(once), q + sum / 65536);
    }
  }

  lemma FoldBounds(sum: nat)
    ensures sum < 0x1_0000_0000 ==> Fold(sum) <= 0x1fffe
    ensures sum <= 0x1fffe ==> Fold(sum) <= 0xffff
  {
  }

  /** The two closing steps of in_cksum do what folding until done would do, on every 32-bit sum. */
  lemma TwoFoldsAreEnough(sum: nat)
    requires sum < 0x1_0000_0000
    ensures Answer(sum) == 0xffff - FoldAll(sum)
  {
    var once := Fold(sum);
    FoldBounds(sum);
    FoldBounds(once);
    FoldStep(sum);
    FoldStep(once);
    FoldBelow(sum);
    FoldBelow(once);
  }

  /** Folding leaves a sum without carry alone. */
  lemma FoldBelow(sum: nat)
    ensures sum < 65536 ==> Fold(sum) == sum == FoldAll(sum) == sum % 65536
  {
  }

  // ---- the accumulator does not wrap ----

  lemma {:induction false} WordSumBound(big: bool, buf: seq<byte>)
    ensures WordSum(big, buf) <= (|buf| + 1) / 2 * 0xffff
    decreases |buf|
  {
    if |buf| >= 2 { WordSumBound(big, buf[2..]); }
  }

  /** n words of the same two bytes. */
  function Copies(x: byte, y: byte, n: nat): seq<byte> { if n == 0 then [] else [x, y] + Copies(x, y, n - 1) }

  lemma {:induction false} CopiesSum(big: bool, x: byte, y: byte, n: nat)
    ensures |Copies(x, y, n)| == 2 * n && WordSum(big, Copies(x, y, n)) == n * Word(big, x, y)
  {
    if n > 0 {
      CopiesSum(big, x, y, n - 1);
      assert Copies(x, y, n)[2..] == Copies(x, y, n - 1);
      OneMoreTime(n - 1, Word(big, x, y));
    }
  }

  lemma OneMoreTime(n: nat, w: nat)
    ensures (n + 1) * w == w + n * w
  {
  }

  function AllOnes(words: nat): seq<byte> { Copies(255, 255, words) }

  lemma AllOnesSum(big: bool, words: nat)
    ensures |AllOnes(words)| == 2 * words && WordSum(big, AllOnes(words)) == words * 0xffff
  {
    CopiesSum(big, 255, 255, words);
  }

  /** 65537 words is the exact limit: no buffer of that length wraps, the longer all-ones one does. */
  lemma WrapLimit(big: bool)
    ensures forall buf: seq<byte> :: |buf| <= 131074 ==> WordSum(big, buf) < 0x1_0000_0000
    ensures forall n :: n > 65537 ==> |AllOnes(n)| == 2 * n && WordSum(big, AllOnes(n)) >= 0x1_0000_0000
  {
    forall buf: seq<byte> | |buf| <= 131074 ensures WordSum(big, buf) < 0x1_0000_0000 {
      WordSumBound(big, buf);
    }
    forall n | n > 65537 ensures |AllOnes(n)| == 2 * n && WordSum(big, AllOnes(n)) >= 0x1_0000_0000 {
      AllOnesSum(big, n);
    }
  }

  /** in_cksum is the complement of the residue of what is left of the sum in 32 bits. */
  lemma CksumOf(big: bool, buf: seq<byte>)
    ensures Cksum(big, buf) == 0xffff - Residue(WordSum(big, buf) % 0x1_0000_0000)
  {
    TwoFoldsAreEnough(WordSum(big, buf) % 0x1_0000_0000);
    FoldAllIsResidue(WordSum(big, buf) % 0x1_0000_0000);
  }

  /** The checksum of RFC 1071: the complement of the folded exact sum. */
  function Rfc1071(big: bool, buf: seq<byte>): int { 0xffff - FoldAll(WordSum(big, buf)) }

  /** Within the limit in_cksum is that checksum. */
  lemma CksumIsRfc1071(big: bool, buf: seq<byte>)
    requires |buf| <= 131074
    ensures Cksum(big, buf) == Rfc1071(big, buf) == 0xffff - Residue(WordSum(big, buf))
  {
    NoWrap(big, buf);
    CksumOf(big, buf);
    FoldAllIsResidue(WordSum(big, buf));
  }

  lemma NoWrap(big: bool, buf: seq<byte>)
    requires |buf| <= 131074
    ensures WordSum(big, buf) < 0x1_0000_0000 && WordSum(big, buf) % 0x1_0000_0000 == WordSum(big, buf)
  {
    WordSumBound(big, buf);
    WordsFit(|buf|);
    SmallRemainder(WordSum(big, buf));
  }

  /** Each wrap of the sum takes 1 off its residue, since 2^32 == 65537 * 65535 + 1. */
  lemma WrappedResidue(sum: nat)
    ensures var wraps, left := sum / 0x1_0000_0000, sum % 0x1_0000_0000;
            Residue(left) == Residue(sum) <==> wraps % 65535 == 0 && (left == 0 ==> sum == 0)
  {
    var wraps, left := sum / 0x1_0000_0000, sum % 0x1_0000_0000;
    assert sum == left + wraps + 65535 * (65537 * wraps);
    if left > 0 {
      var q, q' := (left - 1) / 65535, (sum - 1) / 65535;
      assert left == 65535 * q + Residue(left) && sum == 65535 * q' + Residue(sum);
      if wraps % 65535 == 0 {
        ResidueUnique(sum, Residue(left), q + wraps / 65535 + 65537 * wraps);
      } else if Residue(left) == Residue(sum) {
        assert wraps == 65535 * (q' - q - 65537 * wraps);
        MultipleOf(wraps, q' - q - 65537 * wraps);
      }
    }
  }

  lemma MultipleOf(x: int, k: int)
    requires x == 65535 * k
    ensures x % 65535 == 0
  {
  }

  /** For every buffer: the result is that of RFC 1071 exactly when the sum wraps a multiple of 65535 times, and not
      from a positive sum to 0. */
  lemma Rfc1071Iff(big: bool, buf: seq<byte>)
    ensures var sum := WordSum(big, buf);
            Cksum(big, buf) == Rfc1071(big, buf) <==>
            sum / 0x1_0000_0000 % 65535 == 0 && (sum % 0x1_0000_0000 == 0 ==> sum == 0)
  {
    CksumOf(big, buf);
    FoldAllIsResidue(WordSum(big, buf));
    WrappedResidue(WordSum(big, buf));
  }

  /** A length in C is an int: for those buffers, exactly when the sum does not wrap. */
  lemma Rfc1071IffNoWrap(big: bool, buf: seq<byte>)
    requires |buf| <= 0x7fff_ffff
    ensures Cksum(big, buf) == Rfc1071(big, buf) <==> WordSum(big, buf) < 0x1_0000_0000
  {
    WordSumBound(big, buf);
    Rfc1071Iff(big, buf);
    FewWraps(|buf|, WordSum(big, buf));
  }

  lemma FewWraps(n: nat, sum: nat)
    requires n <= 0x7fff_ffff && sum <= (n + 1) / 2 * 0xffff
    ensures sum / 0x1_0000_0000 < 65535
    ensures sum / 0x1_0000_0000 % 65535 == 0 <==> sum < 0x1_0000_0000
    ensures sum < 0x1_0000_0000 ==> sum % 0x1_0000_0000 == sum
  {
  }

  /** Beyond the limit the all-ones buffers, of every length that an int can hold, do not get the checksum of
      RFC 1071. */
  lemma BeyondTheLimit(big: bool)
    ensures forall n :: 65537 < n <= 0x3fff_ffff ==> Cksum(big, AllOnes(n)) != Rfc1071(big, AllOnes(n))
  {
    forall n | 65537 < n <= 0x3fff_ffff ensures Cksum(big, AllOnes(n)) != Rfc1071(big, AllOnes(n)) {
      AllOnesSum(big, n);
      Rfc1071IffNoWrap(big, AllOnes(n));
    }
  }

  lemma WordsFit(n: nat)
    requires n <= 131074
    ensures (n + 1) / 2 * 0xffff < 0x1_0000_0000
  {
  }

  lemma SmallRemainder(x: nat)
    requires x < 0x1_0000_0000
    ensures x % 0x1_0000_0000 == x
  {
  }

  // ---- the round trip of sendV4 ----

  /** The two bytes a 16-bit value is stored as. */
  function Stored(big: bool, w: int): (bytes: (byte, byte))
    requires 0 <= w <= 0xffff
    ensures Word(big, bytes.0, bytes.1) == w
  {
    if big then (w / 256, w % 256) else (w % 256, w / 256)
  }

  function Filled(big: bool, buf: seq<byte>, at: nat, w: int): (f: seq<byte>)
    requires at + 2 <= |buf| && 0 <= w <= 0xffff
    ensures |f| == |buf|
  {
    buf[at := Stored(big, w).0][at + 1 := Stored(big, w).1]
  }

  lemma {:induction false} FilledSum(big: bool, buf: seq<byte>, at: nat, w: int)
    requires at + 2 <= |buf| && at % 2 == 0 && 0 <= w <= 0xffff
    requires buf[at] == 0 && buf[at + 1] == 0
    ensures WordSum(big, Filled(big, buf, at, w)) == WordSum(big, buf) + w
    decreases at
  {
    var f := Filled(big, buf, at, w);
    if at == 0 {
      assert f[2..] == buf[2..];
    } else {
      assert f[2..] == Filled(big, buf[2..], at - 2, w);
      FilledSum(big, buf[2..], at - 2, w);
    }
  }

  /** A sum and its complement add up to a residue of 0xffff. */
  lemma ComplementFills(sum: nat)
    ensures 0 <= Residue(sum) <= 0xffff && Residue(sum + 0xffff - Residue(sum)) == 0xffff
  {
    ResidueUnique(sum + 0xffff - Residue(sum), 0xffff, if sum == 0 then 0 else (sum - 1) / 65535);
  }

  /** Filling a word never wraps a second time: 2^32 - 1 is a multiple of 65535. */
  lemma NoWrapOnFill(sum: nat)
    requires sum < 0x1_0000_0000
    ensures sum + 0xffff - Residue(sum) < 0x1_0000_0000
  {
    if sum > 0 {
      var q := (sum - 1) / 65535;
      assert sum == 65535 * q + Residue(sum) && q <= 65536;
    }
  }

  /** Zero the checksum word, sum, store the result there: summing again gives 0, for every buffer,
      every even position of the word and both byte orders, whether or not the sum wraps. */
  lemma ChecksumRoundTrip(big: bool, buf: seq<byte>, at: nat)
    requires at + 2 <= |buf| && at % 2 == 0
    requires buf[at] == 0 && buf[at + 1] == 0
    ensures 0 <= Cksum(big, buf) <= 0xffff
    ensures Cksum(big, Filled(big, buf, at, Cksum(big, buf))) == 0
  {
    CksumOf(big, buf);
    var c := Cksum(big, buf);
    var f := Filled(big, buf, at, c);
    FilledSum(big, buf, at, c);
    FillCompletes(WordSum(big, buf), c);
    CksumOf(big, f);
  }

  lemma FillCompletes(sum: nat, c: nat)
    requires c == 0xffff - Residue(sum % 0x1_0000_0000)
    ensures Residue((sum + c) % 0x1_0000_0000) == 0xffff
  {
    var left := sum % 0x1_0000_0000;
    NoWrapOnFill(left);
    ComplementFills(left);
    WrapOnce(sum, c);
    SmallRemainder(left + c);
  }

  // ---- byte order independence ----

  function Swapped(w: int): (s: int)
    requires 0 <= w <= 0xffff
    ensures 0 <= s <= 0xffff && (s == 0 <==> w == 0)
  {
    w % 256 * 256 + w / 256
  }

  /** The sum of the bytes that are the high bytes for a little-endian reader. */
  function HighSum(buf: seq<byte>): nat {
    if |buf| <= 1 then 0 else buf[1] + HighSum(buf[2..])
  }

  lemma {:induction false} SwappedSums(buf: seq<byte>)
    ensures 256 * WordSum(false, buf) == WordSum(true, buf) + 65535 * HighSum(buf)
    ensures WordSum(false, buf) == 0 <==> WordSum(true, buf) == 0
    decreases |buf|
  {
    if |buf| >= 2 { SwappedSums(buf[2..]); }
  }

  /** Swapping the bytes of a residue is multiplying by 256. */
  lemma ResidueSwaps(little: nat, big: nat)
    ensures Residue(big) == Swapped(Residue(little)) <==>
            (256 * little - big) % 65535 == 0 && (little == 0 <==> big == 0)
  {
    if little > 0 && big > 0 {
      var r, q, q' := Residue(little), (little - 1) / 65535, (big - 1) / 65535;
      assert little == 65535 * q + r && big == 65535 * q' + Residue(big);
      assert 256 * r == 65535 * (r / 256) + Swapped(r);
      if (256 * little - big) % 65535 == 0 {
        var k := (256 * little - big) / 65535;
        ResidueUnique(big, Swapped(r), 256 * q + r / 256 - k);
      } else if Residue(big) == Swapped(r) {
        MultipleOf(256 * little - big, 256 * q + r / 256 - q');
      }
    }
  }

  /** For every buffer: reading the words in the other order swaps the bytes of the checksum exactly when the wraps of
      the two sums balance. */
  lemma ByteOrderIff(buf: seq<byte>)
    ensures 0 <= Cksum(false, buf) <= 0xffff
    ensures var little, big := WordSum(false, buf), WordSum(true, buf);
            Cksum(true, buf) == Swapped(Cksum(false, buf)) <==>
            && (256 * (little / 0x1_0000_0000) - big / 0x1_0000_0000) % 65535 == 0
            && (little % 0x1_0000_0000 == 0 <==> big % 0x1_0000_0000 == 0)
  {
    var little, big := WordSum(false, buf), WordSum(true, buf);
    CksumOf(false, buf);
    CksumOf(true, buf);
    SwappedSums(buf);
    WrapsBalance(little, big, HighSum(buf));
    ResidueSwaps(little % 0x1_0000_0000, big % 0x1_0000_0000);
    SwappedComplement(Residue(little % 0x1_0000_0000));
  }

  lemma WrapsBalance(little: nat, big: nat, high: nat)
    requires 256 * little == big + 65535 * high
    ensures (256 * (little % 0x1_0000_0000) - big % 0x1_0000_0000) % 65535 == 0 <==>
            (256 * (little / 0x1_0000_0000) - big / 0x1_0000_0000) % 65535 == 0
  {
    var d := 256 * (little % 0x1_0000_0000) - big % 0x1_0000_0000;
    var e := 256 * (little / 0x1_0000_0000) - big / 0x1_0000_0000;
    var k := high - 65537 * e;
    assert d == 65535 * k - e;
    if d % 65535 == 0 { MultipleOf(e, k - d / 65535); }
    if e % 65535 == 0 { MultipleOf(d, k - e / 65535); }
  }

  /** Section 2(B) of RFC 1071: swapping the bytes of every word swaps the bytes of the checksum, so
      both byte orders store the same two bytes. Within the limit no sum wraps. */
  lemma ByteOrderIndependent(buf: seq<byte>)
    requires |buf| <= 131074
    ensures 0 <= Cksum(false, buf) <= 0xffff && Cksum(true, buf) == Swapped(Cksum(false, buf))
    ensures Stored(true, Cksum(true, buf)) == Stored(false, Cksum(false, buf))
  {
    CksumIsRfc1071(false, buf);
    CksumIsRfc1071(true, buf);
    SwappedSums(buf);
    ExactSumsSwap(WordSum(false, buf), WordSum(true, buf), HighSum(buf));
    SwappedComplement(Residue(WordSum(false, buf)));
  }

  lemma ExactSumsSwap(little: nat, big: nat, high: nat)
    requires 256 * little == big + 65535 * high && (little == 0 <==> big == 0)
    ensures Residue(big) == Swapped(Residue(little))
  {
    MultipleOf(256 * little - big, high);
    ResidueSwaps(little, big);
  }

  /** Beyond it the order can matter: here the sum of the big-endian words wraps and the other does not. */
  lemma ByteOrderMatters(n: nat)
    requires 65794 <= n <= 16843009
    ensures |Copies(255, 0, n)| == 2 * n && 0 <= Cksum(false, Copies(255, 0, n)) <= 0xffff
    ensures Cksum(true, Copies(255, 0, n)) != Swapped(Cksum(false, Copies(255, 0, n)))
  {
    CopiesSum(false, 255, 0, n);
    CopiesSum(true, 255, 0, n);
    ByteOrderIff(Copies(255, 0, n));
    OnlyOneWraps(n);
  }

  lemma OnlyOneWraps(n: nat)
    requires 65794 <= n <= 16843009
    ensures n * 255 < 0x1_0000_0000 <= n * 65280
    ensures n * 255 / 0x1_0000_0000 == 0 && 0 < n * 65280 / 0x1_0000_0000 < 65535
  {
  }

  lemma SwappedComplement(r: nat)
    requires r <= 0xffff
    ensures 0xffff - Swapped(r) == Swapped(0xffff - r)
    ensures Stored(true, Swapped(0xffff - r)) == Stored(false, 0xffff - r)
  {
    var hi, lo := r / 256, r % 256;
    assert 0xffff - r == (255 - hi) * 256 + (255 - lo);
    assert (0xffff - r) / 256 == 255 - hi && (0xffff - r) % 256 == 255 - lo;
  }
}
