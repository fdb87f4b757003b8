/** How a payload is cut into datagrams: the arithmetic of `make_packet_info`. */
module PacketInfo {
  import opened Basics


  const MIN_NB_PACKETS := 10
  const MAX_PACKET_SIZE := 9000
  const SINGLE_PACKAGE_THRESHOLD := 1000
  const SIZE_LIMIT := 0x1_0000_0000_0000_0000

  /** The first payload size that the cut below loses track of. */
  const FIRST_BAD_SIZE := 80_982_000

  type Byte = x: int | 0 <= x < 256

  datatype Info = Info(kind: Byte, nbPackets: nat, packetSize: nat, remSize: nat)

  /** The number of parts a payload of `n` bytes is divided by. */
  function Divisor(n: nat): (k: nat)
    ensures k >= MIN_NB_PACKETS
  {
    var total := MIN_NB_PACKETS * MAX_PACKET_SIZE;
    var growBy := if n > total then (n - total) / MAX_PACKET_SIZE + 1 else 0;
    MIN_NB_PACKETS + growBy
  }

  lemma {:induction false} DivisorBounds(n: nat)
    ensures n < MAX_PACKET_SIZE * Divisor(n) || n == MAX_PACKET_SIZE * Divisor(n) == 90_000
    ensures n > 90_000 ==> Divisor(n) >= 11 && MAX_PACKET_SIZE * (Divisor(n) - 1) <= n
    ensures n <= 90_000 ==> Divisor(n) == 10
  {
  }

  /** Each part is between 1 and 9000 bytes long. */
  lemma PartBounds(n: nat)
    requires n >= SINGLE_PACKAGE_THRESHOLD
    ensures 1 <= n / Divisor(n) <= MAX_PACKET_SIZE
    ensures n > 90_000 ==> n / Divisor(n) >= 8181
    ensures n <= 90_000 ==> n / Divisor(n) >= 100
  {
    DivisorBounds(n);
    var k := Divisor(n);
    QuotientBelow(n, k, MAX_PACKET_SIZE);
    if n > 90_000 {
      QuotientAbove(n, k, 8181);
    } else {
      QuotientAbove(n, k, 100);
    }
  }

  function MakeInfo(kind: Byte, n: nat): Info {
    if n < SINGLE_PACKAGE_THRESHOLD then Info(kind, 1, n, 0)
    else
      PartBounds(n);
      var packetSize := n / Divisor(n);
      Info(kind, n / packetSize, packetSize, n % Divisor(n))
  }

  function Total(info: Info): nat { info.nbPackets * info.packetSize + info.remSize }

  /** The remainder is smaller than a part. */
  predicate Fits(n: nat) {
    n < SINGLE_PACKAGE_THRESHOLD || n % Divisor(n) < n / Divisor(n)
  }

  /** Cutting by the part length finds the divisor again when the remainder is short. */
  lemma ShortRemainder(n: nat, k: nat, part: nat, rem: nat)
    requires n == k * part + rem && rem < part
    ensures n / part == k
  {
    assert part * k == k * part && part * (k + 1) == part * k + part;
    QuotientAbove(n, part, k);
    QuotientBelow(n, part, k);
  }

  lemma LongRemainder(n: nat, k: nat, part: nat, rem: nat)
    requires n == k * part + rem && rem >= part > 0
    ensures (n / part) * part + rem > n
  {
    assert part * k == k * part && part * (k + 1) == part * k + part;
    QuotientAbove(n, part, k + 1);
    MulMono(part, k + 1, n / part);
    assert part * (n / part) == (n / part) * part;
  }

  /** The header describes exactly the payload if and only if the remainder is smaller than a
      part; otherwise the walk over the payload leaves the buffer. */
  lemma {:induction false} PartitionExactIff(kind: Byte, n: nat)
    ensures Total(MakeInfo(kind, n)) == n <==> Fits(n)
    ensures Total(MakeInfo(kind, n)) > n <==> !Fits(n)
  {
    if n >= SINGLE_PACKAGE_THRESHOLD {
      PartBounds(n);
      var k := Divisor(n);
      var part, rem := n / k, n % k;
      Division(n, k);
      if rem < part {
        ShortRemainder(n, k, part, rem);
      } else {
        LongRemainder(n, k, part, rem);
      }
    }
  }

  /** Every datagram is at most 9000 bytes long, the remainder included, while the cut is exact. */
  lemma {:induction false} DatagramBound(kind: Byte, n: nat)
    ensures MakeInfo(kind, n).packetSize <= MAX_PACKET_SIZE
    ensures Fits(n) ==> MakeInfo(kind, n).remSize <= MAX_PACKET_SIZE
  {
    if n >= SINGLE_PACKAGE_THRESHOLD {
      PartBounds(n);
    }
  }

  lemma SquareBelow(k: nat)
    requires 2 <= k <= 8998
    ensures k * k <= MAX_PACKET_SIZE * (k - 1)
  {
    MulMono(k - 2, 0, 8998 - k);
    assert (k - 2) * (8998 - k) == 9000 * k - k * k - 17996;
  }

  /** Up to the first bad size the cut is exact; the receiver's limit of a million bytes is far
      below it. */
  lemma {:induction false} FitsBelowBound(n: nat)
    requires n < FIRST_BAD_SIZE
    ensures Fits(n)
  {
    if n >= SINGLE_PACKAGE_THRESHOLD {
      DivisorBounds(n);
      PartBounds(n);
      var k := Divisor(n);
      if n > 90_000 {
        assert k <= 8998;
        SquareBelow(k);
        QuotientAbove(n, k, k);
      }
    }
  }

  /** The bound is tight: at the first bad size the remainder is a whole part, and the sender
      describes a payload one part longer than it has. */
  lemma {:induction false} FirstBadSize(kind: Byte)
    ensures !Fits(FIRST_BAD_SIZE)
    ensures MakeInfo(kind, FIRST_BAD_SIZE) == Info(kind, 9000, 8998, 8998)
  {
    assert Divisor(FIRST_BAD_SIZE) == 8999;
    assert FIRST_BAD_SIZE / 8999 == 8998 && FIRST_BAD_SIZE % 8999 == 8998;
    assert FIRST_BAD_SIZE / 8998 == 9000;
  }

  /** Both quotients stay below 2^53, so taking their floor as a `double` changes nothing. */
  lemma {:induction false} FloorsAreExact(kind: Byte, n: nat)
    requires n < SIZE_LIMIT
    ensures MakeInfo(kind, n).packetSize < 0x20_0000_0000_0000
    ensures MakeInfo(kind, n).nbPackets < 0x20_0000_0000_0000
  {
    if n >= SINGLE_PACKAGE_THRESHOLD {
      PartBounds(n);
      var part := n / Divisor(n);
      assert n < part * 0x20_0000_0000_0000;
      QuotientBelow(n, part, 0x1F_FFFF_FFFF_FFFF);
    }
  }

  /** The cut in numbers: one packet up to 999 bytes, ten parts up to 90,000 bytes, and from there on
      one part more for each 9000 bytes begun, as long as the remainder is smaller than a part. */
  lemma {:induction false} CutInNumbers(kind: Byte, n: nat)
    ensures n <= 999 ==> MakeInfo(kind, n) == Info(kind, 1, n, 0) && Fits(n)
    ensures var k := if n <= 90_000 then 10 else 11 + (n - 90_000) / 9000;
            n >= 1000 ==>
              && MakeInfo(kind, n).packetSize == n / k && MakeInfo(kind, n).remSize == n % k
              && (n % k < n / k ==> MakeInfo(kind, n).nbPackets == k && Fits(n))
  {
    if n >= 1000 {
      var k := if n <= 90_000 then 10 else 11 + (n - 90_000) / 9000;
      assert Divisor(n) == k;
      Division(n, k);
      if n % k < n / k {
        ShortRemainder(n, k, n / k, n % k);
      }
    }
  }
}
