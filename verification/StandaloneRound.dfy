/** run_round of io_uring_msg_ring_f0_standalone.c: one fill of a whole table, checked slot by slot. */
module StandaloneRound {
  import opened Words
  import opened Counting
  import opened Completions
  import opened Bitmaps
  import opened Lifecycle

  const QD: nat := 64
  const SLOTS: nat := 4096

  function AllSlots(n: nat): (s: seq<nat>)
    ensures |s| == n && forall i :: 0 <= i < n ==> s[i] == i
  {
    seq(n, i requires 0 <= i < n => i)
  }

  /** A fill of the whole table leaves no slot out: as many operations as slots, each with a slot of its own. */
  lemma WholeTable(words: seq<Word>, s: seq<int>, slots: nat)
    requires |s| == slots && Distinct(s) && InRange(s, slots) && Marks(words, s)
    ensures forall x: nat :: x < slots ==> Has(words, x)
  {
    OntoByCount(s, slots);
  }

  /** run_round: false stands for bad(). quiet is the final test of the rings. It returns exactly when both rings gave
      the operations all the slots of the table, one each, and every slot read back; so its own search for missing
      slots can never be what stops it. */
  method RunRound(fills: nat -> FillBatch, answers: nat -> ReadBack, slots: nat, quiet: bool) returns (ok: bool)
    ensures ok <==>
      && 0 < slots <= SLOTS && slots % QD == 0
      && (exists s :: Gives(fills, slots, slots, s)) && ReadsOk(answers, AllSlots(slots)) && quiet
  {
    if slots == 0 || slots > SLOTS || slots % QD != 0 {
      return false;
    }
    var bitmap, transfer := new Word[SLOTS / 64](_ => {}), new nat[slots](_ => 0);
    var filled := FillTarget(fills, slots, slots, bitmap, transfer);
    FilledIsGiven(fills, slots);
    if !filled {
      return false;
    }
    FilledMeansGiven(fills, slots, slots, transfer[..]);
    WholeTable(bitmap[..], transfer[..], slots);
    var full := true;
    for x := 0 to slots
      invariant full
    {
      assert Has(bitmap[..], x);
      full := full && x % 64 in bitmap[x / 64];
    }
    var read := ReadInstalled(answers, AllSlots(slots));
    ok := full && read && quiet;
  }

  lemma FilledIsGiven(fills: nat -> FillBatch, slots: nat)
    requires slots <= TWO32
    ensures FilledTo(fills, slots, slots, Batches(slots)) <==> exists s :: Gives(fills, slots, slots, s)
  {
    FilledMeansGiven(fills, slots, slots, Reported(fills, slots, Batches(slots)));
    forall s | Gives(fills, slots, slots, s) ensures FilledTo(fills, slots, slots, Batches(slots)) {
      FilledMeansGiven(fills, slots, slots, s);
    }
  }
}
