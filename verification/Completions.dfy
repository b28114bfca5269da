/** Completion entries, the tags that identify them, and what one drain of a queue finds. */
module Completions {
  import opened Words
  import opened Counting

  datatype Cqe = Cqe(userData: u64, res: int, flags: u32)

  const SOURCE_TAG: u64 := 0x5301_0000_0000_0000
  const TARGET_TAG: u64 := 0x5401_0000_0000_0000
  const VERIFY_TAG: u64 := 0x5601_0000_0000_0000
  const RX_TAG: u64 := 0x5701_0000_0000_0000
  const TX_TAG: u64 := 0x5801_0000_0000_0000

  /** A tag occupies the upper 16 bits, a sequence number the lower 48. */
  predicate IsTag(tag: u64) {
    tag % TWO48 == 0
  }

  /** tagged_user_data: the two parts share no bit, so the disjunction is their sum. */
  function Tagged(tag: u64, sequence: nat): u64
    requires IsTag(tag)
  {
    tag + sequence % TWO48
  }

  const STRAY: int := -1

  /** decode_sequence: the index of a completion within its batch, or STRAY. */
  function Decode(userData: u64, tag: u64, base: nat, count: nat): (index: int)
    requires IsTag(tag)
    ensures index == STRAY || 0 <= index < count
  {
    var sequence := userData % TWO48;
    if userData - sequence != tag then STRAY
    else if sequence < base || sequence >= base + count then STRAY
    else sequence - base
  }

  /** Decoding inverts tagging, and accepts nothing else. */
  lemma DecodeInvertsTagging(userData: u64, tag: u64, base: nat, count: nat, i: nat)
    requires IsTag(tag) && base + count <= TWO48 && i < count
    ensures Decode(userData, tag, base, count) == i <==> userData == Tagged(tag, base + i)
  {
  }

  function Keys(w: seq<Cqe>, tag: u64, base: nat, count: nat): (ks: seq<int>)
    requires IsTag(tag)
    ensures |ks| == |w|
    ensures forall j :: 0 <= j < |w| ==> ks[j] == Decode(w[j].userData, tag, base, count)
  {
    seq(|w|, j requires 0 <= j < |w| => Decode(w[j].userData, tag, base, count))
  }

  /** The window holds exactly one completion for each of the batch's operations, with no flags
      and with the given results, in any order. */
  ghost predicate Describes(w: seq<Cqe>, tag: u64, base: nat, results: seq<int>)
    requires IsTag(tag)
  {
    && |w| == |results|
    && forall i :: 0 <= i < |results| ==> Cqe(Tagged(tag, base + i), results[i], 0) in w
  }

  /** The result of the first completion that names operation i, if there is one. */
  ghost function ResultAt(w: seq<Cqe>, ks: seq<int>, i: nat): int
    requires |ks| == |w|
  {
    if i in ks then w[IndexOf(ks, i)].res else STRAY
  }

  ghost predicate AllFlagless(w: seq<Cqe>) {
    forall j :: 0 <= j < |w| ==> w[j].flags == 0
  }

  /** In a described window the keys are a permutation and the results are the ones found. */
  lemma DescribedWindow(w: seq<Cqe>, tag: u64, base: nat, results: seq<int>)
    requires IsTag(tag) && base + |results| <= TWO48 && Describes(w, tag, base, results)
    ensures var ks := Keys(w, tag, base, |results|);
      && Covers(ks, |results|) && Distinct(ks) && InRange(ks, |results|) && AllFlagless(w)
      && forall j :: 0 <= j < |w| ==> w[j].res == results[ks[j]]
  {
    var n := |results|;
    var ks := Keys(w, tag, base, n);
    forall i | 0 <= i < n ensures i in ks {
      var c := Cqe(Tagged(tag, base + i), results[i], 0);
      assert c in w;
      var j :| 0 <= j < |w| && w[j] == c;
      DecodeInvertsTagging(w[j].userData, tag, base, n, i);
      assert ks[j] == i;
    }
    ExactCover(ks, n);
    forall j | 0 <= j < |w| ensures w[j].flags == 0 && w[j].res == results[ks[j]] {
      var i := ks[j];
      var c := Cqe(Tagged(tag, base + i), results[i], 0);
      assert c in w;
      var j' :| 0 <= j' < |w| && w[j'] == c;
      DecodeInvertsTagging(w[j'].userData, tag, base, n, i);
      assert ks[j'] == i;
    }
  }

  /** Conversely, a clean permutation is described by the results found in it. */
  lemma CleanWindow(w: seq<Cqe>, tag: u64, base: nat, results: seq<int>)
    requires IsTag(tag) && base + |results| <= TWO48 && |w| == |results|
    requires var ks := Keys(w, tag, base, |results|);
      Covers(ks, |results|) && AllFlagless(w) && (forall i :: 0 <= i < |results| ==> results[i] == ResultAt(w, ks, i))
    ensures Describes(w, tag, base, results)
  {
    var n := |results|;
    var ks := Keys(w, tag, base, n);
    forall i | 0 <= i < n ensures Cqe(Tagged(tag, base + i), results[i], 0) in w {
      assert i in ks;
      var j := IndexOf(ks, i);
      DecodeInvertsTagging(w[j].userData, tag, base, n, i);
      assert w[j] == Cqe(Tagged(tag, base + i), results[i], 0);
    }
  }
}
