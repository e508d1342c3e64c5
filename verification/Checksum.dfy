/** NetworkUtil's Internet checksum, the TCP checksum over the pseudo-header, and the
    switch's deliberate corruption of TCP frames. */
module Checksum {

  type Byte = b: int | 0 <= b < 256

  /** A big-endian 16-bit word. */
  function Word(hi: Byte, lo: Byte): (w: nat)
    ensures w < 65536 && w / 256 == hi && w % 256 == lo
  {
    (hi as int) * 256 + (lo as int)
  }

  // ----- Section 1 of RFC 1071 -----

  /** The sum of the 16-bit big-endian words, an odd last byte padded with zero. */
  function WordSum(b: seq<Byte>): nat
    decreases |b|
  {
    if |b| == 0 then 0
    else if |b| == 1 then Word(b[0], 0)
    else Word(b[0], b[1]) + WordSum(b[2..])
  }

  /** 16-bit one's-complement addition: the carry is added back in. */
  function OnesAdd(a: nat, b: nat): (r: nat)
    requires a < 65536 && b < 65536
    ensures r < 65536
  {
    if a + b < 65536 then a + b else a + b - 65535
  }

  /** The one's-complement sum of the words, one after the other. */
  function OnesSum(b: seq<Byte>): (r: nat)
    ensures r < 65536
    decreases |b|
  {
    if |b| == 0 then 0
    else if |b| == 1 then Word(b[0], 0)
    else OnesAdd(Word(b[0], b[1]), OnesSum(b[2..]))
  }

  /** The 16-bit value of a sum: 65535 is taken off until 16 bits are enough. */
  function Canon(n: nat): (r: nat)
    ensures r < 65536 && (r == 0 <==> n == 0)
  {
    if n < 65536 then n else Canon(n - 65535)
  }

  lemma TakeOff(n: nat)
    requires n >= 65535
    ensures n % 65535 == (n - 65535) % 65535
  {
  }

  lemma {:induction false} CanonMod(n: nat)
    ensures Canon(n) % 65535 == n % 65535
  {
    if n >= 65536 {
      TakeOff(n);
      CanonMod(n - 65535);
    }
  }

  lemma OneResidue(r: nat, c: nat)
    requires 1 <= r < 65536 && 1 <= c < 65536
    ensures r % 65535 == c % 65535 <==> r == c
  {
  }

  /** It is 0 for 0 and otherwise the one number in 1..65535 congruent to the sum modulo
      65535. */
  lemma CanonIsUnique(n: nat, r: nat)
    ensures r == Canon(n) <==> r < 65536 && (r == 0 <==> n == 0) && r % 65535 == n % 65535
  {
    CanonMod(n);
    if 1 <= r < 65536 && n > 0 {
      OneResidue(r, Canon(n));
    }
  }

  /** One end-around carry of a value below 2^17. */
  function Fold(x: nat): nat {
    x % 65536 + x / 65536
  }

  /** Replacing a summand by its 16-bit value keeps the 16-bit value of the sum. */
  lemma {:induction false} CanonAbsorbs(m: nat, n: nat)
    ensures Canon(m + Canon(n)) == Canon(m + n)
    decreases n
  {
    if n >= 65536 {
      CanonAbsorbs(m, n - 65535);
    }
  }

  lemma FoldIsCanon(y: nat)
    requires y <= 131070
    ensures Fold(y) == Canon(y)
  {
    assert Fold(y) == if y < 65536 then y else y - 65535;
  }

  lemma FoldCanon(n: nat, x: nat)
    requires Canon(n) + x <= 131070
    ensures Fold(Canon(n) + x) == Canon(n + x)
  {
    FoldIsCanon(Canon(n) + x);
    CanonAbsorbs(x, n);
  }

  /** One's-complement addition is addition of what the values stand for. */
  lemma OnesAddCanon(w: nat, n: nat)
    requires w < 65536
    ensures OnesAdd(w, Canon(n)) == Canon(w + n)
  {
    CanonAbsorbs(w, n);
  }

  lemma {:induction false} OnesSumIsCanon(b: seq<Byte>)
    ensures OnesSum(b) == Canon(WordSum(b))
    decreases |b|
  {
    if |b| > 1 {
      OnesSumIsCanon(b[2..]);
      OnesAddCanon(Word(b[0], b[1]), WordSum(b[2..]));
    }
  }

  lemma {:induction false} ZeroSum(b: seq<Byte>)
    ensures WordSum(b) == 0 <==> forall i :: 0 <= i < |b| ==> b[i] == 0
    decreases |b|
  {
    if |b| > 1 {
      ZeroSum(b[2..]);
      if WordSum(b) == 0 {
        forall i | 0 <= i < |b| ensures b[i] == 0 {
          if i >= 2 {
            assert b[i] == b[2..][i - 2];
          }
        }
      }
    }
  }

  /** One and two bytes by themselves; WordSumConcat gives the rest. */
  lemma ShortSums(hi: Byte, lo: Byte)
    ensures WordSum([]) == 0 && WordSum([hi]) == hi * 256 && WordSum([hi, lo]) == hi * 256 + lo
  {
    TwoBytes([hi, lo]);
  }

  // ----- one_sum -----

  /** The bytes weighted as the loop weighs them: even positions are the upper halves. */
  function Weighted(b: seq<Byte>): nat
    decreases |b|
  {
    if |b| == 0 then 0
    else Weighted(b[..|b| - 1]) + if |b| % 2 == 1 then Word(b[|b| - 1], 0) else Word(0, b[|b| - 1])
  }

  lemma {:induction false} WeightedShift(b: seq<Byte>)
    requires |b| >= 2
    ensures Weighted(b) == Word(b[0], b[1]) + Weighted(b[2..])
    decreases |b|
  {
    var n := |b| - 1;
    if |b| == 2 {
      assert b[..1][..0] == [] && b[2..] == [];
      assert Weighted(b[..1]) == Word(b[0], 0);
    } else {
      WeightedShift(b[..n]);
      assert b[..n][2..] == b[2..][..n - 2];
    }
  }

  lemma {:induction false} WeightedIsWordSum(b: seq<Byte>)
    ensures Weighted(b) == WordSum(b)
    decreases |b|
  {
    if |b| == 1 {
      assert b[..0] == [];
    } else if |b| >= 2 {
      WeightedShift(b);
      WeightedIsWordSum(b[2..]);
    }
  }

  function Contribution(buffer: seq<Byte>, k: nat): nat
    requires k < |buffer|
  {
    if k % 2 == 0 then Word(buffer[k], 0) else Word(0, buffer[k])
  }

  lemma WeightedExtend(buffer: seq<Byte>, k: nat)
    requires k < |buffer|
    ensures Weighted(buffer[..k + 1]) == Weighted(buffer[..k]) + Contribution(buffer, k)
  {
    assert buffer[..k + 1][..k] == buffer[..k];
  }

  /** One pass of the loop. */
  lemma OnePass(buffer: seq<Byte>, k: nat, sum: nat)
    requires k < |buffer| && sum == Canon(Weighted(buffer[..k]))
    ensures sum + Contribution(buffer, k) <= 0x1FEFF
    ensures Fold(sum + Contribution(buffer, k)) == Canon(Weighted(buffer[..k + 1]))
  {
    WeightedExtend(buffer, k);
    FoldCanon(Weighted(buffer[..k]), Contribution(buffer, k));
  }

  lemma SumIsChecksum(buffer: seq<Byte>, r: nat)
    requires r == Canon(Weighted(buffer))
    ensures r == OnesSum(buffer) == Canon(WordSum(buffer))
    ensures r == 0 <==> forall i :: 0 <= i < |buffer| ==> buffer[i] == 0
    ensures Fold(r) == r
  {
    FoldIsCanon(r);
    WeightedIsWordSum(buffer);
    OnesSumIsCanon(buffer);
    ZeroSum(buffer);
  }

  /** one_sum on any buffer is its one's-complement sum; the accumulator stays within
      0x1FEFF and the fold after the loop changes nothing. */
  method OneSum(buffer: seq<Byte>) returns (r: nat)
    ensures r == OnesSum(buffer) == Canon(WordSum(buffer))
    ensures r == 0 <==> forall i :: 0 <= i < |buffer| ==> buffer[i] == 0
  {
    var upper := true;
    var sum := 0;
    var k := 0;
    while k < |buffer|
      invariant k <= |buffer| && upper == (k % 2 == 0)
      invariant sum == Canon(Weighted(buffer[..k]))
    {
      OnePass(buffer, k, sum);
      if upper {
        sum := sum + Word(buffer[k], 0);
      } else {
        sum := sum + Word(0, buffer[k]);
      }
      upper := !upper;
      assert sum <= 0x1FEFF;
      sum := Fold(sum);
      k := k + 1;
    }
    assert buffer[..k] == buffer;
    SumIsChecksum(buffer, sum);
    assert Fold(sum) == sum;
    r := Fold(sum);
  }

  /** Changing one aligned word changes the checksum, unless the two words are the two
      forms of zero (and the buffer is not just that zero). */
  lemma WordChangeShows(a: seq<Byte>, x: seq<Byte>, y: seq<Byte>, b: seq<Byte>)
    requires |a| % 2 == 0 && |x| == 2 && |y| == 2
    ensures OnesSum(a + (x + b)) == OnesSum(a + (y + b)) <==>
      && Word(x[0], x[1]) % 65535 == Word(y[0], y[1]) % 65535
      && (WordSum(a + (x + b)) == 0 <==> WordSum(a + (y + b)) == 0)
  {
    OnesSumIsCanon(a + (x + b));
    OnesSumIsCanon(a + (y + b));
    ReplaceWords([], a, x, y, b);
    assert [] + (a + (x + b)) == a + (x + b) && [] + (a + (y + b)) == a + (y + b);
    TwoBytes(x);
    TwoBytes(y);
    SameCanon(WordSum(a + (x + b)), WordSum(a + (y + b)), Word(x[0], x[1]), Word(y[0], y[1]));
  }

  lemma SameCanon(m: nat, n: nat, x: nat, y: nat)
    requires n + x == m + y
    ensures Canon(m) == Canon(n) <==> x % 65535 == y % 65535 && (m == 0 <==> n == 0)
  {
    ModShift(m, n, x, y);
    CanonMod(m);
    CanonIsUnique(n, Canon(m));
  }

  lemma ModShift(m: nat, n: nat, x: nat, y: nat)
    requires n + x == m + y
    ensures m % 65535 == n % 65535 <==> x % 65535 == y % 65535
  {
    Congruent(m, n);
    Congruent(x, y);
  }

  lemma Congruent(a: int, b: int)
    ensures a % 65535 == b % 65535 <==> (a - b) % 65535 == 0
  {
  }

  /** A sum of 0xFFFF turns into something other than the two zeros exactly if the words
      differ modulo 65535. */
  lemma AllOnesLost(m: nat, n: nat, x: nat, y: nat)
    requires n + x == m + y && Canon(m) == 0xFFFF
    ensures Canon(n) != 0xFFFF && Canon(n) != 0 <==> x % 65535 != y % 65535
  {
    ModShift(m, n, x, y);
    CanonMod(m);
    CanonMod(n);
    CanonIsUnique(n, 0xFFFF);
  }

  /** Adding the complement of a sum's 16-bit value gives all ones. */
  lemma ComplementSums(n: nat)
    requires n > 0
    ensures Canon(n + (65535 - Canon(n))) == 65535
  {
    CanonAbsorbs(65535 - Canon(n), n);
  }

  // ----- tcp_sum -----

  const IPPROTO_TCP: Byte := 6

  /** The 96-bit pseudo-header of section 3.1 of RFC 793; addresses as their four bytes in
      memory order, the length cut to 16 bits and in network order. */
  function PseudoHeader(source: seq<Byte>, dest: seq<Byte>, length: nat): (h: seq<Byte>)
    requires |source| == 4 && |dest| == 4
    ensures |h| == 12 && h[9] == IPPROTO_TCP
  {
    source + dest + [0, IPPROTO_TCP, length % 65536 / 256, length % 256]
  }

  lemma {:induction false} WordSumConcat(a: seq<Byte>, b: seq<Byte>)
    requires |a| % 2 == 0
    ensures WordSum(a + b) == WordSum(a) + WordSum(b)
    decreases |a|
  {
    if a == [] {
      assert a + b == b;
    } else {
      assert (a + b)[2..] == a[2..] + b;
      WordSumConcat(a[2..], b);
    }
  }

  function TcpTotal(source: seq<Byte>, dest: seq<Byte>, segment: seq<Byte>): nat
    requires |source| == 4 && |dest| == 4
  {
    WordSum(PseudoHeader(source, dest, |segment|) + segment)
  }

  /** The TCP sum: both addresses, the protocol number, the segment's length and the segment. */
  lemma TcpTotalIs(source: seq<Byte>, dest: seq<Byte>, segment: seq<Byte>)
    requires |source| == 4 && |dest| == 4
    ensures TcpTotal(source, dest, segment) == WordSum(source) + WordSum(dest) + 6 + |segment| % 65536 + WordSum(segment)
  {
    var n := |segment| % 65536;
    var tail: seq<Byte> := [0, IPPROTO_TCP, n / 256, |segment| % 256];
    assert PseudoHeader(source, dest, |segment|) == source + dest + tail;
    HeaderSum(source, dest, tail, segment);
    FourBytes(tail);
    LowByte(|segment|);
  }

  lemma HeaderSum(source: seq<Byte>, dest: seq<Byte>, tail: seq<Byte>, segment: seq<Byte>)
    requires |source| == 4 && |dest| == 4 && |tail| == 4
    ensures WordSum(source + dest + tail + segment) == WordSum(source) + WordSum(dest) + WordSum(tail) + WordSum(segment)
  {
    WordSumConcat(source + dest + tail, segment);
    WordSumConcat(source + dest, tail);
    WordSumConcat(source, dest);
  }

  lemma LowByte(n: nat)
    ensures n % 65536 / 256 * 256 + n % 256 == n % 65536
  {
    SameLowByte(n / 65536 * 256, n % 65536);
  }

  lemma SameLowByte(k: nat, m: nat)
    ensures (k * 256 + m) % 256 == m % 256
  {
  }

  lemma TcpFold(header: seq<Byte>, segment: seq<Byte>)
    requires |header| == 12 && header[9] == IPPROTO_TCP
    ensures Fold(OnesSum(header) + OnesSum(segment)) == OnesSum(header + segment)
    ensures OnesSum(header + segment) == Canon(WordSum(header + segment)) && WordSum(header + segment) > 0
  {
    OnesSumIsCanon(header);
    OnesSumIsCanon(segment);
    OnesSumIsCanon(header + segment);
    WordSumConcat(header, segment);
    FoldTwo(WordSum(header), WordSum(segment));
    ZeroSum(header);
  }

  /** tcp_sum adds two folded sums; the result is the checksum of pseudo-header and
      segment as one buffer, whatever the segment's length from 20 up. */
  method TcpSum(source: seq<Byte>, dest: seq<Byte>, segment: seq<Byte>) returns (r: nat)
    requires |source| == 4 && |dest| == 4
    ensures |segment| < 20 ==> r == 0
    ensures |segment| >= 20 ==> r == OnesSum(PseudoHeader(source, dest, |segment|) + segment)
    ensures |segment| >= 20 ==> r == Canon(TcpTotal(source, dest, segment)) && r != 0
    ensures |segment| >= 20 ==> r == Canon(WordSum(source) + WordSum(dest) + 6 + |segment| % 65536 + WordSum(segment))
  {
    if |segment| < 20 {
      return 0;
    }
    var header := PseudoHeader(source, dest, |segment|);
    var sum := OneSum(header);
    var second := OneSum(segment);
    sum := sum + second;
    r := Fold(sum);
    TcpFold(header, segment);
    TcpTotalIs(source, dest, segment);
  }

  lemma FoldTwo(m: nat, n: nat)
    ensures Fold(Canon(m) + Canon(n)) == Canon(m + n)
  {
    FoldCanon(m, Canon(n));
    CanonAbsorbs(m, n);
  }

  // ----- The switch's damage -----

  const IP_START := 14
  const TCP_START := 34

  /** The TCP checksum of an Ethernet frame carrying an option-less IPv4 header. */
  function FrameTotal(frame: seq<Byte>): nat
    requires |frame| >= 54
  {
    TcpTotal(frame[26..30], frame[30..34], frame[TCP_START..])
  }

  /** A receiver accepts the segment: its sum is 0xFFFF. */
  predicate SumsToAllOnes(frame: seq<Byte>)
    requires |frame| >= 54
  {
    Canon(FrameTotal(frame)) == 0xFFFF
  }

  /** The source and destination addresses are bytes 26 to 33, the segment begins at 34. */
  lemma FrameTotalIs(frame: seq<Byte>)
    requires |frame| >= 54
    ensures FrameTotal(frame) == WordSum(frame[26..30]) + WordSum(frame[30..34]) + 6 + (|frame| - 34) % 65536 + WordSum(frame[34..])
  {
    TcpTotalIs(frame[26..30], frame[30..34], frame[34..]);
  }

  function Overwrite(frame: seq<Byte>, at: nat, data: seq<Byte>): (r: seq<Byte>)
    requires at + |data| <= |frame|
    ensures |r| == |frame|
  {
    frame[..at] + data + frame[at + |data|..]
  }

  /** What the switch writes over the four bytes after the TCP header (a little-endian
      host's 0xEEEEEEEE, or 0xEEEEEEEF if that is there already)... */
  function LongPatch(frame: seq<Byte>): (r: seq<Byte>)
    requires |frame| >= 58
    ensures |r| == 4 && r != frame[54..58]
  {
    if frame[54..58] != [0xEE, 0xEE, 0xEE, 0xEE] then [0xEE, 0xEE, 0xEE, 0xEE]
    else
      assert [0xEF, 0xEE, 0xEE, 0xEE][0] != [0xEE, 0xEE, 0xEE, 0xEE][0];
      [0xEF, 0xEE, 0xEE, 0xEE]
  }

  /** ...or over the TCP checksum of a frame too short for that. */
  function ShortPatch(frame: seq<Byte>): (r: seq<Byte>)
    requires |frame| >= 54
    ensures |r| == 2 && r != frame[50..52]
  {
    if frame[50..52] != [0xEE, 0xEE] then [0xEE, 0xEE]
    else
      assert [0xEF, 0xEE][0] != [0xEE, 0xEE][0];
      [0xEF, 0xEE]
  }

  function Damage(frame: seq<Byte>): (r: seq<Byte>)
    ensures |r| == |frame|
    ensures |frame| < 54 ==> r == frame
  {
    if |frame| >= 58 then Overwrite(frame, 54, LongPatch(frame))
    else if |frame| >= 54 then Overwrite(frame, 50, ShortPatch(frame))
    else frame
  }

  /** Byte by byte: from 54 on four bytes (two from 50 on in a shorter frame) become 0xEE, the
      first of them 0xEF if they were 0xEE already; every other byte stays. */
  lemma DamageIs(frame: seq<Byte>, i: nat)
    requires i < |frame|
    ensures var from, to := if |frame| >= 58 then 54 else 50, if |frame| >= 58 then 58 else 52;
      Damage(frame)[i] ==
        if |frame| < 54 || i < from || to <= i then frame[i]
        else if i == from && forall k :: from <= k < to ==> frame[k] == 0xEE then 0xEF
        else 0xEE
  {
    if |frame| >= 58 {
      assert frame[54..58] == [0xEE, 0xEE, 0xEE, 0xEE] <==> forall k :: 54 <= k < 58 ==> frame[k] == 0xEE by {
        assert frame[54..58] == [frame[54], frame[55], frame[56], frame[57]];
      }
    } else if |frame| >= 54 {
      assert frame[50..52] == [0xEE, 0xEE] <==> forall k :: 50 <= k < 52 ==> frame[k] == 0xEE by {
        assert frame[50..52] == [frame[50], frame[51]];
      }
    }
  }

  lemma ReplaceWords(h: seq<Byte>, a: seq<Byte>, x: seq<Byte>, y: seq<Byte>, b: seq<Byte>)
    requires |h| % 2 == 0 && |a| % 2 == 0 && |x| % 2 == 0 && |y| % 2 == 0
    ensures WordSum(h + (a + (y + b))) + WordSum(x) == WordSum(h + (a + (x + b))) + WordSum(y)
  {
    WordSumConcat(h, a + (x + b));
    WordSumConcat(h, a + (y + b));
    WordSumConcat(a, x + b);
    WordSumConcat(a, y + b);
    WordSumConcat(x, b);
    WordSumConcat(y, b);
  }

  function FrameHeader(frame: seq<Byte>): (h: seq<Byte>)
    requires |frame| >= 54
    ensures |h| == 12
  {
    PseudoHeader(frame[26..30], frame[30..34], |frame| - TCP_START)
  }

  lemma SplitTotal(frame: seq<Byte>, h: seq<Byte>, a: seq<Byte>, x: seq<Byte>, b: seq<Byte>)
    requires |frame| >= 54 && h == FrameHeader(frame) && frame[TCP_START..] == a + (x + b)
    ensures FrameTotal(frame) == WordSum(h + (a + (x + b)))
  {
  }

  lemma SameAddresses(frame: seq<Byte>, r: seq<Byte>)
    requires |frame| == |r| >= 54 && frame[..TCP_START] == r[..TCP_START]
    ensures FrameHeader(r) == FrameHeader(frame)
  {
    assert frame[26..30] == frame[..TCP_START][26..30] && frame[30..34] == frame[..TCP_START][30..34];
    assert r[26..30] == r[..TCP_START][26..30] && r[30..34] == r[..TCP_START][30..34];
  }

  lemma OverwriteShape(frame: seq<Byte>, at: nat, data: seq<Byte>)
    requires TCP_START <= at && at + |data| <= |frame|
    ensures var r := Overwrite(frame, at, data); var n := at + |data|;
      && r[..TCP_START] == frame[..TCP_START]
      && frame[TCP_START..] == frame[TCP_START..at] + (frame[at..n] + frame[n..])
      && r[TCP_START..] == frame[TCP_START..at] + (data + frame[n..])
  {
  }

  lemma EvenOffset(at: nat)
    requires TCP_START <= at && at % 2 == 0
    ensures (at - TCP_START) % 2 == 0
  {
  }

  lemma OverwriteParts(frame: seq<Byte>, at: nat, data: seq<Byte>, was: seq<Byte>)
    returns (h: seq<Byte>, a: seq<Byte>, b: seq<Byte>)
    requires TCP_START <= at && at % 2 == 0 && at + |data| <= |frame| && |frame| >= 54
    requires was == frame[at..at + |data|]
    ensures |h| == 12 && |a| % 2 == 0
    ensures FrameTotal(frame) == WordSum(h + (a + (was + b)))
    ensures FrameTotal(Overwrite(frame, at, data)) == WordSum(h + (a + (data + b)))
  {
    var r, n := Overwrite(frame, at, data), at + |data|;
    OverwriteShape(frame, at, data);
    EvenOffset(at);
    h, a, b := FrameHeader(frame), frame[TCP_START..at], frame[n..];
    SameAddresses(frame, r);
    SplitTotal(frame, h, a, was, b);
    SplitTotal(r, h, a, data, b);
  }

  /** Overwriting whole words inside the segment moves the sum by the difference. */
  lemma OverwriteTotal(frame: seq<Byte>, at: nat, data: seq<Byte>, was: seq<Byte>)
    requires TCP_START <= at && at % 2 == 0 && |data| % 2 == 0 && at + |data| <= |frame| && |frame| >= 54
    requires was == frame[at..at + |data|]
    ensures FrameTotal(Overwrite(frame, at, data)) + WordSum(was) == FrameTotal(frame) + WordSum(data)
  {
    var h, a, b := OverwriteParts(frame, at, data, was);
    ReplaceWords(h, a, was, data, b);
  }

  lemma TotalIsPositive(frame: seq<Byte>)
    requires |frame| >= 54
    ensures FrameTotal(frame) > 0
  {
    TcpFold(FrameHeader(frame), frame[TCP_START..]);
  }

  lemma AllOnesIffMultiple(frame: seq<Byte>)
    requires |frame| >= 54
    ensures SumsToAllOnes(frame) <==> FrameTotal(frame) % 65535 == 0
  {
    TotalIsPositive(frame);
    CanonIsUnique(FrameTotal(frame), 65535);
  }

  lemma MultipleMoves(a: nat, b: nat, old_: nat, new_: nat)
    requires a + old_ == b + new_ && b % 65535 == 0
    ensures a % 65535 == 0 <==> old_ % 65535 == new_ % 65535
  {
    ModShift(a, b, new_, old_);
  }

  lemma DifferentWords(was: seq<Byte>, patch: seq<Byte>)
    requires |was| == |patch| == 2 && was != patch && patch[0] in {0xEE, 0xEF} && patch[1] == 0xEE
    ensures WordSum(was) % 65535 != WordSum(patch) % 65535
  {
    TwoBytes(was);
    TwoBytes(patch);
    WordInjective(was[0], was[1], patch[0], patch[1]);
    if WordSum(was) > 0 {
      OneResidue(WordSum(was), WordSum(patch));
    }
  }

  lemma WordInjective(a: Byte, b: Byte, c: Byte, d: Byte)
    ensures Word(a, b) == Word(c, d) <==> a == c && b == d
  {
  }

  lemma {:induction false} TwoBytes(b: seq<Byte>)
    requires |b| == 2
    ensures WordSum(b) == Word(b[0], b[1])
  {
    assert WordSum(b[2..]) == 0;
  }

  /** Damage to a frame without payload is always detected. */
  lemma ShortDamageIsDetected(frame: seq<Byte>)
    requires 54 <= |frame| < 58 && SumsToAllOnes(frame)
    ensures !SumsToAllOnes(Damage(frame))
  {
    var patch := ShortPatch(frame);
    var was := frame[50..52];
    OverwriteTotal(frame, 50, patch, was);
    DifferentWords(was, patch);
    AllOnesLost(FrameTotal(frame), FrameTotal(Damage(frame)), WordSum(was), WordSum(patch));
  }

  /** Damage to a longer frame goes undetected exactly when the four overwritten bytes and
      the four written ones have congruent word sums. */
  lemma LongDamage(frame: seq<Byte>)
    requires |frame| >= 58 && SumsToAllOnes(frame)
    ensures SumsToAllOnes(Damage(frame)) <==> WordSum(frame[54..58]) % 65535 == WordSum(LongPatch(frame)) % 65535
  {
    OverwriteTotal(frame, 54, LongPatch(frame), frame[54..58]);
    AllOnesIffMultiple(frame);
    AllOnesIffMultiple(Damage(frame));
    MultipleMoves(FrameTotal(Damage(frame)), FrameTotal(frame), WordSum(frame[54..58]), WordSum(LongPatch(frame)));
  }

  function Zeros(n: nat): (r: seq<Byte>)
    ensures |r| == n && forall i :: 0 <= i < n ==> r[i] == 0
  {
    seq(n, i => 0)
  }

  /** A frame with a correct checksum and the payload EE EF EE ED. */
  function Sample(): (frame: seq<Byte>)
    ensures |frame| == 58
  {
    Zeros(50) + ([0x22, 0x04, 0, 0] + [0xEE, 0xEF, 0xEE, 0xED])
  }

  lemma SampleTotal()
    ensures FrameTotal(Sample()) == 131070
  {
    var frame := Sample();
    var tail: seq<Byte> := [0x22, 0x04, 0, 0] + [0xEE, 0xEF, 0xEE, 0xED];
    var header := FrameHeader(frame);
    assert frame[TCP_START..] == Zeros(16) + tail;
    assert header == Zeros(8) + [0, 6, 0, 24];
    SampleTail(tail);
    AfterZeros(16, tail);
    FourBytes([0, 6, 0, 24]);
    AfterZeros(8, [0, 6, 0, 24]);
    WordSumConcat(header, Zeros(16) + tail);
  }

  lemma SampleTail(tail: seq<Byte>)
    requires tail == [0x22, 0x04, 0, 0] + [0xEE, 0xEF, 0xEE, 0xED]
    ensures WordSum(tail) == 131040
  {
    FourBytes([0x22, 0x04, 0, 0]);
    FourBytes([0xEE, 0xEF, 0xEE, 0xED]);
    WordSumConcat([0x22, 0x04, 0, 0], [0xEE, 0xEF, 0xEE, 0xED]);
  }

  lemma AfterZeros(n: nat, b: seq<Byte>)
    requires n % 2 == 0
    ensures WordSum(Zeros(n) + b) == WordSum(b)
  {
    ZeroSum(Zeros(n));
    WordSumConcat(Zeros(n), b);
  }

  /** Such frames exist: a correct frame whose damage no checksum shows. */
  lemma LongDamageCanBeInvisible()
    ensures SumsToAllOnes(Sample()) && Damage(Sample()) != Sample() && SumsToAllOnes(Damage(Sample()))
  {
    var frame := Sample();
    SampleTotal();
    AllOnesIffMultiple(frame);
    assert frame[54..58] == [0xEE, 0xEF, 0xEE, 0xED];
    assert frame[54..58][1] == 0xEF;
    FourBytes(frame[54..58]);
    FourBytes(LongPatch(frame));
    LongDamage(frame);
    assert Damage(frame)[54..58] == LongPatch(frame);
  }

  lemma FourBytes(b: seq<Byte>)
    requires |b| == 4
    ensures WordSum(b) == Word(b[0], b[1]) + Word(b[2], b[3])
  {
    assert b[2..][2..] == [];
    assert WordSum(b[2..]) == Word(b[2], b[3]) + WordSum([]);
  }
}
