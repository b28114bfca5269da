/** The completion validators of io_uring_futex_round.c. */
module FutexCheck {
  import opened Words
  import opened Completions
  import opened Bitmaps
  import opened Checklist
  import opened Counting

  const SLOTS: nat := 32
  const KIND_UNIT: nat := 0x100_0000_0000_0000

  datatype Kind = Wait | Wake | Cancel | Check | Nop | Other

  function Code(kind: Kind): nat {
    match kind
    case Wait => 1
    case Wake => 2
    case Cancel => 3
    case Check => 4
    case Nop => 5
    case Other => 6
  }

  /** make_tag: kind, cycle and index occupy bits 56 up, 16 to 47 and 0 to 15. */
  function MakeTag(kind: Kind, cycle: u32, index: u16): u64 {
    Code(kind) * KIND_UNIT + cycle * TWO16 + index
  }

  function TagKind(tag: u64): Kind {
    var c := tag / KIND_UNIT;
    if c == 1 then Wait else if c == 2 then Wake else if c == 3 then Cancel
    else if c == 4 then Check else if c == 5 then Nop else Other
  }

  function TagIndex(tag: u64): (i: nat)
    ensures i < TWO16
  {
    tag % TWO16
  }

  /** What bits 16 to 55 of a tag hold; no validator reads them. */
  function TagCycle(tag: u64): nat {
    tag % KIND_UNIT / TWO16
  }

  /** The two readers recover what make_tag was given. */
  lemma TagsRoundTrip(kind: Kind, cycle: u32, index: u16)
    ensures TagKind(MakeTag(kind, cycle, index)) == kind && TagIndex(MakeTag(kind, cycle, index)) == index
  {
  }

  /** A tag of a known kind is determined by its kind, its index and the bits between them. */
  lemma TagsAreTheirParts(tag: u64, kind: Kind, cycle: u32, index: u16)
    requires kind != Other
    ensures tag == MakeTag(kind, cycle, index) <==>
      TagKind(tag) == kind && TagCycle(tag) == cycle && TagIndex(tag) == index
  {
    assert tag == tag / KIND_UNIT * KIND_UNIT + TagCycle(tag) * TWO16 + TagIndex(tag);
  }

  /** The index and the kind decide; the cycle is not looked at. */
  function PairKey(tag: u64, slots: nat, second: Kind): (k: Key)
    ensures k.First? || k.Second? ==> k.i < slots
  {
    var kind, i := TagKind(tag), TagIndex(tag);
    if i >= slots || (kind != Wait && kind != second) then Stray
    else if kind == Wait then First(i)
    else Second(i)
  }

  function SingleKey(tag: u64, slots: nat, kind: Kind): (k: Key)
    ensures !k.Second? && (k.First? ==> k.i < slots)
  {
    if TagKind(tag) != kind || TagIndex(tag) >= slots then Stray else First(TagIndex(tag))
  }

  function PairList(slots: nat, waitRes: int, secondRes: int): List {
    List(slots, slots, waitRes, secondRes)
  }

  function SingleList(slots: nat, res: int): List {
    List(slots, 0, res, 0)
  }

  /** Counting the slots that were missed. */
  method CountMissing(m: Marks, slots: nat, pairs: bool) returns (x: Errors)
    requires slots <= 64
    requires forall i: nat :: i in m.first ==> i < slots
    requires forall i: nat :: i in m.second ==> i < if pairs then slots else 0
    ensures x == NONE <==>
      m.errors == NONE && m.first == Ones(slots) && m.second == Ones(if pairs then slots else 0)
  {
    x := m.errors;
    for i := 0 to slots
      invariant x == NONE <==> m.errors == NONE && forall k :: 0 <= k < i ==> k in m.first && (pairs ==> k in m.second)
    {
      if i !in m.first || (pairs && i !in m.second) {
        x := x.(unexpected := x.unexpected + 1);
      }
    }
  }

  lemma MarksInRange(x: Errors, w: seq<Cqe>, ks: seq<Key>, list: List)
    requires |w| == |ks| && AllKnown(ks, list)
    ensures var m := MarkAll(Blank(x), w, ks, list, |w|);
      forall i: nat :: (i in m.first ==> i < list.firsts) && (i in m.second ==> i < list.seconds)
  {
    SeenMeans(x, w, ks, list, |w|);
    assert ks[..|w|] == ks;
  }

  /** validate_pair_cqes: 0 exactly when the counters were clean and the window holds every slot's wait and every
      slot's second request once, with their results and no flags, and nothing else. */
  method ValidatePair(w: seq<Cqe>, slots: nat, waitRes: int, secondRes: int, second: Kind, errors: Errors)
    returns (ok: bool, x: Errors)
    requires second != Other
    ensures ok <==>
      && slots <= SLOTS && errors == NONE
      && Exactly(w, KeysOf(w, (tag: u64) => PairKey(tag, slots, second)), PairList(slots, waitRes, secondRes))
    ensures ok ==> x == NONE && |w| == 2 * slots
  {
    if slots > SLOTS {
      return false, errors;
    }
    var list, keyOf := PairList(slots, waitRes, secondRes), (tag: u64) => PairKey(tag, slots, second);
    var m := Tick(w, keyOf, list, errors);
    MarksInRange(errors, w, KeysOf(w, keyOf), list);
    CheckMeans(errors, w, KeysOf(w, keyOf), list);
    x := CountMissing(m, slots, true);
    ok := x == NONE;
  }

  /** validate_single_cqes. */
  method ValidateSingle(w: seq<Cqe>, slots: nat, kind: Kind, res: int, errors: Errors) returns (ok: bool, x: Errors)
    requires slots <= SLOTS && kind != Other
    ensures ok <==>
      errors == NONE && Exactly(w, KeysOf(w, (tag: u64) => SingleKey(tag, slots, kind)), SingleList(slots, res))
    ensures ok ==> x == NONE && |w| == slots
  {
    var list, keyOf := SingleList(slots, res), (tag: u64) => SingleKey(tag, slots, kind);
    var m := Tick(w, keyOf, list, errors);
    MarksInRange(errors, w, KeysOf(w, keyOf), list);
    CheckMeans(errors, w, KeysOf(w, keyOf), list);
    x := CountMissing(m, slots, false);
    ok := x == NONE;
  }

  /** The answers to one pair cycle. */
  function PairAnswers(cycle: u32, slots: nat, waitRes: int, secondRes: int, second: Kind): (w: seq<Cqe>)
    requires slots <= SLOTS
    ensures |w| == 2 * slots
  {
    seq(slots, i requires 0 <= i < slots => Cqe(MakeTag(Wait, cycle, i), waitRes, 0)) +
    seq(slots, i requires 0 <= i < slots => Cqe(MakeTag(second, cycle, i), secondRes, 0))
  }

  /** The cycle in a tag is not checked: the answers to any cycle, in any order, pass for those of any other. */
  lemma AnyCyclePasses(w: seq<Cqe>, cycle: u32, slots: nat, waitRes: int, secondRes: int, second: Kind)
    requires slots <= SLOTS && second != Other && second != Wait
    requires multiset(w) == multiset(PairAnswers(cycle, slots, waitRes, secondRes, second))
    ensures Exactly(w, KeysOf(w, (tag: u64) => PairKey(tag, slots, second)), PairList(slots, waitRes, secondRes))
  {
    var all, list := PairAnswers(cycle, slots, waitRes, secondRes, second), PairList(slots, waitRes, secondRes);
    var ks := KeysOf(w, (tag: u64) => PairKey(tag, slots, second));
    assert |multiset(w)| == |multiset(all)|;
    forall i: nat | i < slots ensures Ticked(w, ks, First(i), list) && Ticked(w, ks, Second(i), list) {
      assert all[i] in multiset(all) && all[slots + i] in multiset(all);
      TickedBy(w, ks, list, slots, second, Wait, cycle, i, Cqe(MakeTag(Wait, cycle, i), waitRes, 0));
      TickedBy(w, ks, list, slots, second, second, cycle, i, Cqe(MakeTag(second, cycle, i), secondRes, 0));
    }
  }

  lemma TickedBy(w: seq<Cqe>, ks: seq<Key>, list: List, slots: nat, second: Kind, kind: Kind, cycle: u32, i: nat,
                 e: Cqe)
    requires |ks| == |w| && forall j :: 0 <= j < |w| ==> ks[j] == PairKey(w[j].userData, slots, second)
    requires i < slots <= SLOTS && second != Other && second != Wait && (kind == Wait || kind == second)
    requires e in w && e.userData == MakeTag(kind, cycle, i) && e.flags == 0
    requires e.res == if kind == Wait then list.firstRes else list.secondRes
    ensures Ticked(w, ks, if kind == Wait then First(i) else Second(i), list)
  {
    TagsRoundTrip(kind, cycle, i);
    var j :| 0 <= j < |w| && w[j] == e;
    assert ks[j] == if kind == Wait then First(i) else Second(i);
  }

  /** The completion that answers a key in a pair cycle. */
  function AnswerTo(k: Key, cycle: u32, list: List, second: Kind): Cqe
    requires !k.Stray? && k.i < SLOTS
  {
    if k.First? then Cqe(MakeTag(Wait, cycle, k.i), list.firstRes, 0)
    else Cqe(MakeTag(second, cycle, k.i), list.secondRes, 0)
  }

  /** A right completion is this cycle's answer to its key if and only if its tag carries this cycle. */
  lemma RightAnswer(e: Cqe, cycle: u32, slots: nat, list: List, second: Kind)
    requires slots <= SLOTS && second != Other && second != Wait && Right(e, PairKey(e.userData, slots, second), list)
    ensures e == AnswerTo(PairKey(e.userData, slots, second), cycle, list, second) <==> TagCycle(e.userData) == cycle
  {
    TagsAreTheirParts(e.userData, if TagKind(e.userData) == Wait then Wait else second, cycle, TagIndex(e.userData));
  }

  /** What the check leaves open, exactly: a window that passes holds the answers to this cycle if and only if bits
      16 to 55 of every tag say so. */
  lemma AnswersThisCycle(w: seq<Cqe>, cycle: u32, slots: nat, waitRes: int, secondRes: int, second: Kind)
    requires slots <= SLOTS && second != Other && second != Wait
    requires Exactly(w, KeysOf(w, (tag: u64) => PairKey(tag, slots, second)), PairList(slots, waitRes, secondRes))
    ensures multiset(w) == multiset(PairAnswers(cycle, slots, waitRes, secondRes, second)) <==>
      forall j :: 0 <= j < |w| ==> TagCycle(w[j].userData) == cycle
  {
    var all := PairAnswers(cycle, slots, waitRes, secondRes, second);
    forall j | 0 <= j < |w| ensures w[j] in all <==> TagCycle(w[j].userData) == cycle {
      PassingAnswer(w, cycle, slots, waitRes, secondRes, second, j);
    }
    if multiset(w) == multiset(all) {
      assert forall j :: 0 <= j < |w| ==> w[j] in multiset(w);
    } else if forall j :: 0 <= j < |w| ==> w[j] in all {
      PassingDiffer(w, slots, waitRes, secondRes, second);
      AnswersDiffer(cycle, slots, waitRes, secondRes, second);
      AllOfThem(w, all);
      assert false;
    }
  }

  lemma PassingDiffer(w: seq<Cqe>, slots: nat, waitRes: int, secondRes: int, second: Kind)
    requires slots <= SLOTS
    requires Exactly(w, KeysOf(w, (tag: u64) => PairKey(tag, slots, second)), PairList(slots, waitRes, secondRes))
    ensures NoRepeats(w)
  {
    var ks := KeysOf(w, (tag: u64) => PairKey(tag, slots, second));
    ExactIsComplete(w, ks, PairList(slots, waitRes, secondRes));
    assert ks[..|w|] == ks;
    forall i, j | 0 <= i < j < |w| ensures w[i] != w[j] {
      assert ks[i] != ks[j];
    }
  }

  lemma PassingAnswer(w: seq<Cqe>, cycle: u32, slots: nat, waitRes: int, secondRes: int, second: Kind, j: nat)
    requires slots <= SLOTS && second != Other && second != Wait && j < |w|
    requires Exactly(w, KeysOf(w, (tag: u64) => PairKey(tag, slots, second)), PairList(slots, waitRes, secondRes))
    ensures w[j] in PairAnswers(cycle, slots, waitRes, secondRes, second) <==> TagCycle(w[j].userData) == cycle
  {
    var list := PairList(slots, waitRes, secondRes);
    var ks := KeysOf(w, (tag: u64) => PairKey(tag, slots, second));
    ExactIsComplete(w, ks, list);
    assert Right(w[j], ks[j], list);
    RightAnswer(w[j], cycle, slots, list, second);
    AnswersAre(w[j], cycle, slots, waitRes, secondRes, second);
  }

  /** The key of each answer. */
  function KeyAt(slots: nat, p: nat): Key {
    if p < slots then First(p) else Second(p - slots)
  }

  lemma AnswerAt(cycle: u32, slots: nat, waitRes: int, secondRes: int, second: Kind, p: nat)
    requires slots <= SLOTS && second != Other && second != Wait && p < 2 * slots
    ensures var e := PairAnswers(cycle, slots, waitRes, secondRes, second)[p];
      && PairKey(e.userData, slots, second) == KeyAt(slots, p)
      && e == AnswerTo(KeyAt(slots, p), cycle, PairList(slots, waitRes, secondRes), second)
  {
    TagsRoundTrip(if p < slots then Wait else second, cycle, if p < slots then p else p - slots);
  }

  lemma AnswersDiffer(cycle: u32, slots: nat, waitRes: int, secondRes: int, second: Kind)
    requires slots <= SLOTS && second != Other && second != Wait
    ensures NoRepeats(PairAnswers(cycle, slots, waitRes, secondRes, second))
  {
    var all := PairAnswers(cycle, slots, waitRes, secondRes, second);
    forall p, q | 0 <= p < q < |all| ensures all[p] != all[q] {
      AnswerAt(cycle, slots, waitRes, secondRes, second, p);
      AnswerAt(cycle, slots, waitRes, secondRes, second, q);
    }
  }

  lemma AnswersAre(e: Cqe, cycle: u32, slots: nat, waitRes: int, secondRes: int, second: Kind)
    requires slots <= SLOTS && second != Other && second != Wait && !PairKey(e.userData, slots, second).Stray?
    ensures e in PairAnswers(cycle, slots, waitRes, secondRes, second) <==>
      e == AnswerTo(PairKey(e.userData, slots, second), cycle, PairList(slots, waitRes, secondRes), second)
  {
    var all, k := PairAnswers(cycle, slots, waitRes, secondRes, second), PairKey(e.userData, slots, second);
    if e in all {
      var p :| 0 <= p < |all| && all[p] == e;
      AnswerAt(cycle, slots, waitRes, secondRes, second, p);
    }
    AnswerAt(cycle, slots, waitRes, secondRes, second, if k.First? then k.i else slots + k.i);
  }
}
