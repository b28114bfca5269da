/** The numbered payloads of io_uring_net_round.c, and what comparing them can and cannot notice. */
module Payloads {
  import opened Words

  const PAYLOAD_BYTES: nat := 128
  const QD: nat := 32

  /** Byte j of the payload numbered sequence; the arithmetic wraps at 64 bits before it is cut to 8. */
  function Byte(sequence: u64, j: nat): nat {
    (sequence * 131 + j * 17 + 0x5a) % TWO64 % 256
  }

  ghost predicate IsPayload(p: seq<nat>, sequence: u64) {
    |p| == PAYLOAD_BYTES && forall j :: 0 <= j < PAYLOAD_BYTES ==> p[j] == Byte(sequence, j)
  }

  /** pattern_fill. */
  method Fill(p: array<nat>, sequence: u64)
    requires p.Length == PAYLOAD_BYTES
    modifies p
    ensures IsPayload(p[..], sequence)
  {
    for j := 0 to PAYLOAD_BYTES
      invariant forall k :: 0 <= k < j ==> p[k] == Byte(sequence, k)
    {
      p[j] := Byte(sequence, j);
    }
  }

  /** pattern_matches. */
  method Matches(p: seq<nat>, sequence: u64) returns (same: bool)
    requires |p| == PAYLOAD_BYTES
    ensures same <==> IsPayload(p, sequence)
  {
    var expected := new nat[PAYLOAD_BYTES];
    Fill(expected, sequence);
    same := p == expected[..];
  }

  lemma WrapIsHarmless(x: nat)
    ensures x % TWO64 % 256 == x % 256
  {
    assert x == x / TWO64 * TWO64 + x % TWO64;
    assert x == 256 * (x / TWO64 * (TWO64 / 256)) + x % TWO64;
    SameResidue(x, x % TWO64, x / TWO64 * (TWO64 / 256), 256);
  }

  /** 131 is invertible modulo 256: 131 * 43 == 22 * 256 + 1. */
  lemma Invertible(d: int)
    requires 131 * d % 256 == 0
    ensures d % 256 == 0
  {
    var q := 131 * d / 256;
    assert 131 * d == 256 * q;
    assert 5633 * d == 256 * (43 * q);
    assert d == 256 * (43 * q - 22 * d);
  }

  /** Two payload numbers share a byte at any one position exactly when they agree modulo 256. */
  lemma BytesAgree(a: u64, b: u64, j: nat)
    ensures Byte(a, j) == Byte(b, j) <==> a % 256 == b % 256
  {
    var x, y := a * 131 + j * 17 + 0x5a, b * 131 + j * 17 + 0x5a;
    WrapIsHarmless(x);
    WrapIsHarmless(y);
    AgreeMod256(a, b, x, y);
  }

  lemma AgreeMod256(a: nat, b: nat, x: nat, y: nat)
    requires x - y == 131 * (a - b)
    ensures x % 256 == y % 256 <==> a % 256 == b % 256
  {
    if x % 256 == y % 256 {
      DifferenceDivides(x, y);
      Invertible(a - b);
      SameResidue(a, b, (a - b) / 256, 256);
    }
    if a % 256 == b % 256 {
      DifferenceDivides(a, b);
      SameResidue(x, y, 131 * ((a - b) / 256), 256);
    }
  }

  lemma DifferenceDivides(x: nat, y: nat)
    requires x % 256 == y % 256
    ensures (x - y) % 256 == 0 && x - y == 256 * ((x - y) / 256)
  {
    assert x - y == 256 * (x / 256 - y / 256);
  }

  /** So a payload tells its number modulo 256, and no more. */
  lemma PayloadTellsResidue(p: seq<nat>, a: u64, b: u64)
    requires IsPayload(p, a)
    ensures IsPayload(p, b) <==> a % 256 == b % 256
  {
    forall j: nat ensures Byte(a, j) == Byte(b, j) <==> a % 256 == b % 256 {
      BytesAgree(a, b, j);
    }
    assert IsPayload(p, b) ==> p[0] == Byte(a, 0) == Byte(b, 0);
  }

  /** The queue holds the 32 payloads numbered from base, in order. */
  ghost predicate InOrder(queue: seq<seq<nat>>, base: u64)
    requires base + QD <= TWO64
  {
    && |queue| == QD
    && forall i :: 0 <= i < QD ==> |queue[i]| >= PAYLOAD_BYTES && IsPayload(queue[i][..PAYLOAD_BYTES], base + i)
  }

  /** What one recv answers: a datagram, cut to the buffer if it is longer; an empty queue; or another error. */
  datatype Recv = Got(bytes: seq<nat>) | Empty | Failed

  predicate Long(r: Recv) {
    r.Got? && |r.bytes| >= PAYLOAD_BYTES
  }

  /** Thirty-two payloads in order, and then an empty queue. */
  ghost predicate Drained(answers: nat -> Recv, base: u64)
    requires base + QD <= TWO64
  {
    && answers(QD).Empty?
    && forall i :: 0 <= i < QD ==> Long(answers(i)) && IsPayload(answers(i).bytes[..PAYLOAD_BYTES], base + i)
  }

  /** peer_drain, whatever its 33 calls of recv answer. */
  method PeerDrain(answers: nat -> Recv, base: u64) returns (ok: bool, mismatches: nat)
    requires base + QD <= TWO64
    ensures ok <==> answers(QD).Empty? && forall i :: 0 <= i < QD ==> Long(answers(i))
    ensures ok && mismatches == 0 <==> Drained(answers, base)
  {
    mismatches := 0;
    for i := 0 to QD
      invariant forall k :: 0 <= k < i ==> Long(answers(k))
      invariant mismatches == 0 <==>
        forall k :: 0 <= k < i ==> IsPayload(answers(k).bytes[..PAYLOAD_BYTES], base + k)
    {
      var r := answers(i);
      if !r.Got? || |r.bytes| < PAYLOAD_BYTES {
        return false, mismatches;
      }
      var same := Matches(r.bytes[..PAYLOAD_BYTES], base + i);
      if !same {
        mismatches := mismatches + 1;
      }
    }
    ok := answers(QD).Empty?;
  }

  /** A socket that answers from its queue of datagrams and never fails otherwise. */
  function FromQueue(queue: seq<seq<nat>>, i: nat): Recv {
    if i < |queue| then Got(queue[i]) else Empty
  }

  /** On such a socket the drain passes exactly for a queue of the 32 payloads in order. */
  lemma DrainedQueue(queue: seq<seq<nat>>, base: u64)
    requires base + QD <= TWO64
    ensures Drained((i: nat) => FromQueue(queue, i), base) <==> InOrder(queue, base)
  {
    var answers := (i: nat) => FromQueue(queue, i);
    if Drained(answers, base) {
      assert Long(answers(QD - 1));
      forall i | 0 <= i < QD ensures |queue[i]| >= PAYLOAD_BYTES && IsPayload(queue[i][..PAYLOAD_BYTES], base + i) {
        assert Long(answers(i));
      }
    }
  }

  /** What a drain without mismatches says about the datagrams that were sent: each carries a number congruent to
      the expected one modulo 256. */
  lemma DrainTellsResidues(queue: seq<seq<nat>>, base: u64, numbers: seq<u64>)
    requires base + QD <= TWO64 && |queue| == |numbers| == QD
    requires forall i :: 0 <= i < QD ==> IsPayload(queue[i], numbers[i])
    ensures InOrder(queue, base) <==>
      forall i :: 0 <= i < QD ==> numbers[i] % 256 == (base + i) % 256
  {
    forall i | 0 <= i < QD
      ensures IsPayload(queue[i][..PAYLOAD_BYTES], base + i) <==> numbers[i] % 256 == (base + i) % 256
    {
      assert queue[i][..PAYLOAD_BYTES] == queue[i];
      PayloadTellsResidue(queue[i], numbers[i], base + i);
    }
  }

  /** Within one batch every reordering, loss or repetition is noticed. */
  lemma ReorderingIsNoticed(queue: seq<seq<nat>>, base: u64, order: seq<nat>)
    requires base + QD <= TWO64 && |queue| == |order| == QD
    requires forall i :: 0 <= i < QD ==> order[i] < QD && IsPayload(queue[i], base + order[i])
    ensures InOrder(queue, base) <==>
      forall i :: 0 <= i < QD ==> order[i] == i
  {
    var numbers: seq<u64> := seq(QD, i requires 0 <= i < QD => base + order[i]);
    DrainTellsResidues(queue, base, numbers);
    forall i | 0 <= i < QD
      ensures numbers[i] % 256 == (base + i) % 256 <==> order[i] == i
    {
      NearNumbers(base, order[i], i);
    }
  }

  lemma NearNumbers(base: nat, x: nat, y: nat)
    requires x < 256 && y < 256
    ensures (base + x) % 256 == (base + y) % 256 <==> x == y
  {
  }

  /** But the batch sent eight batches earlier, or later, passes for the current one. */
  lemma StaleBatchIsNotNoticed(queue: seq<seq<nat>>, base: u64)
    requires base + 9 * QD <= TWO64
    ensures InOrder(queue, base) <==> InOrder(queue, base + 8 * QD)
  {
    forall i | 0 <= i < QD && |queue| == QD && |queue[i]| >= PAYLOAD_BYTES
      ensures IsPayload(queue[i][..PAYLOAD_BYTES], base + i) <==>
        IsPayload(queue[i][..PAYLOAD_BYTES], base + 8 * QD + i)
    {
      SameResidue(base + 8 * QD + i, base + i, 1, 256);
      if IsPayload(queue[i][..PAYLOAD_BYTES], base + i) {
        PayloadTellsResidue(queue[i][..PAYLOAD_BYTES], base + i, base + 8 * QD + i);
      } else if IsPayload(queue[i][..PAYLOAD_BYTES], base + 8 * QD + i) {
        PayloadTellsResidue(queue[i][..PAYLOAD_BYTES], base + 8 * QD + i, base + i);
      }
    }
  }
}
