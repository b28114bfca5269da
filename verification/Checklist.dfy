/** The way the cancel and futex programs check a window of completions: every expected key ticked off once in a
    mask, every other completion counted as an error. */
module Checklist {
  import opened Words
  import opened Counting
  import opened Completions
  import opened Bitmaps

  /** What a completion's user data names: one of the original requests, one of the requests sent against them, or
      nothing expected. */
  datatype Key = First(i: nat) | Second(i: nat) | Stray

  /** How many of each kind a window must hold, and the results they must carry. */
  datatype List = List(firsts: nat, seconds: nat, firstRes: int, secondRes: int)

  predicate Known(k: Key, list: List) {
    (k.First? ==> k.i < list.firsts <= 64) && (k.Second? ==> k.i < list.seconds <= 64)
  }

  function Wanted(k: Key, list: List): int {
    if k.First? then list.firstRes else list.secondRes
  }

  datatype Errors = Errors(unexpected: nat, duplicates: nat, badResults: nat, badFlags: nat)

  const NONE: Errors := Errors(0, 0, 0, 0)

  /** The two masks, and the completions of each kind that carried the wanted result. */
  datatype Marks = Marks(first: Word, second: Word, firstGood: nat, secondGood: nat, errors: Errors)

  function Blank(errors: Errors): Marks {
    Marks({}, {}, 0, 0, errors)
  }

  function Mark(m: Marks, e: Cqe, k: Key, list: List): Marks
    requires Known(k, list)
  {
    var x := m.errors.(badFlags := m.errors.badFlags + if e.flags != 0 then 1 else 0);
    if k.Stray? then m.(errors := x.(unexpected := x.unexpected + 1))
    else
      var good := e.res == Wanted(k, list);
      var again := if k.First? then k.i in m.first else k.i in m.second;
      var y := x.(duplicates := x.duplicates + (if again then 1 else 0),
                  badResults := x.badResults + if good then 0 else 1);
      if k.First? then m.(first := m.first + {k.i}, firstGood := m.firstGood + (if good then 1 else 0), errors := y)
      else m.(second := m.second + {k.i}, secondGood := m.secondGood + (if good then 1 else 0), errors := y)
  }

  predicate AllKnown(ks: seq<Key>, list: List) {
    forall j :: 0 <= j < |ks| ==> Known(ks[j], list)
  }

  function MarkAll(m: Marks, w: seq<Cqe>, ks: seq<Key>, list: List, n: nat): Marks
    requires n <= |w| == |ks| && AllKnown(ks, list)
  {
    if n == 0 then m else Mark(MarkAll(m, w, ks, list, n - 1), w[n - 1], ks[n - 1], list)
  }

  /** A completion that says what it should. */
  predicate Right(e: Cqe, k: Key, list: List) {
    !k.Stray? && e.flags == 0 && e.res == Wanted(k, list)
  }

  ghost predicate AllRight(w: seq<Cqe>, ks: seq<Key>, list: List, n: nat)
    requires n <= |w| == |ks|
  {
    (forall j :: 0 <= j < n ==> Right(w[j], ks[j], list)) && NoRepeats(ks[..n])
  }

  predicate Fresh(m: Marks, k: Key) {
    (k.First? ==> k.i !in m.first) && (k.Second? ==> k.i !in m.second)
  }

  lemma MarkOne(m: Marks, e: Cqe, k: Key, list: List)
    requires Known(k, list)
    ensures var p := Mark(m, e, k, list);
      && (p.errors == NONE <==> m.errors == NONE && Right(e, k, list) && Fresh(m, k))
      && (p.errors == NONE && m.firstGood == |m.first| ==> p.firstGood == |p.first|)
      && (p.errors == NONE && m.secondGood == |m.second| ==> p.secondGood == |p.second|)
  {
  }

  lemma {:induction false} SeenMeans(x: Errors, w: seq<Cqe>, ks: seq<Key>, list: List, n: nat)
    requires n <= |w| == |ks| && AllKnown(ks, list)
    ensures var p := MarkAll(Blank(x), w, ks, list, n);
      forall i: nat :: (i in p.first <==> First(i) in ks[..n]) && (i in p.second <==> Second(i) in ks[..n])
  {
    if n != 0 {
      SeenMeans(x, w, ks, list, n - 1);
      assert ks[..n] == ks[..n - 1] + [ks[n - 1]];
    }
  }

  /** No error is counted exactly when every completion is right and none repeats another. */
  lemma {:induction false} MarksMean(x: Errors, w: seq<Cqe>, ks: seq<Key>, list: List, n: nat)
    requires n <= |w| == |ks| && AllKnown(ks, list)
    ensures var p := MarkAll(Blank(x), w, ks, list, n);
      && (p.errors == NONE <==> x == NONE && AllRight(w, ks, list, n))
      && (p.errors == NONE ==> p.firstGood == |p.first| && p.secondGood == |p.second|)
  {
    if n != 0 {
      var m := n - 1;
      MarksMean(x, w, ks, list, m);
      SeenMeans(x, w, ks, list, m);
      MarkOne(MarkAll(Blank(x), w, ks, list, m), w[m], ks[m], list);
      RightGrows(w, ks, list, m);
    }
  }

  lemma RightGrows(w: seq<Cqe>, ks: seq<Key>, list: List, m: nat)
    requires m < |w| == |ks|
    ensures AllRight(w, ks, list, m + 1) <==> AllRight(w, ks, list, m) && Right(w[m], ks[m], list) && ks[m] !in ks[..m]
  {
    assert ks[..m + 1] == ks[..m] + [ks[m]];
    RepeatsGrow(ks[..m], ks[m]);
  }

  lemma {:induction false} OnesCount(n: nat)
    requires n <= 64
    ensures |Ones(n)| == n
  {
    if n != 0 {
      OnesCount(n - 1);
    }
  }

  /** Some completion carries this key, with the wanted result and no flags. */
  ghost predicate Ticked(w: seq<Cqe>, ks: seq<Key>, k: Key, list: List)
    requires |w| == |ks|
  {
    exists j :: 0 <= j < |w| && ks[j] == k && Right(w[j], k, list)
  }

  /** The window is exactly the list: as many completions as expected, one for every expected key. */
  ghost predicate Exactly(w: seq<Cqe>, ks: seq<Key>, list: List)
    requires |w| == |ks|
  {
    && |w| == list.firsts + list.seconds
    && (forall i: nat :: i < list.firsts ==> Ticked(w, ks, First(i), list))
    && (forall i: nat :: i < list.seconds ==> Ticked(w, ks, Second(i), list))
  }

  function Flat(k: Key, firsts: nat): int {
    match k
    case First(i) => i
    case Second(i) => firsts + i
    case Stray => -1
  }

  function Flats(ks: seq<Key>, firsts: nat): (fs: seq<int>)
    ensures |fs| == |ks| && forall j :: 0 <= j < |ks| ==> fs[j] == Flat(ks[j], firsts)
  {
    seq(|ks|, j requires 0 <= j < |ks| => Flat(ks[j], firsts))
  }

  /** Right completions without repeats, and all keys seen. */
  ghost predicate Complete(w: seq<Cqe>, ks: seq<Key>, list: List)
    requires |w| == |ks|
  {
    && AllRight(w, ks, list, |w|)
    && (forall i: nat :: i < list.firsts ==> First(i) in ks)
    && (forall i: nat :: i < list.seconds ==> Second(i) in ks)
  }

  lemma CompleteIsExact(w: seq<Cqe>, ks: seq<Key>, list: List)
    requires |w| == |ks| && AllKnown(ks, list) && Complete(w, ks, list)
    ensures Exactly(w, ks, list)
  {
    var n, fs := list.firsts + list.seconds, Flats(ks, list.firsts);
    assert ks[..|w|] == ks;
    CoversFlats(ks, list);
    assert Distinct(fs) && InRange(fs, n);
    ExactCover(fs, n);
    forall i: nat | i < list.firsts ensures Ticked(w, ks, First(i), list) {
      var j :| 0 <= j < |ks| && ks[j] == First(i);
      assert Right(w[j], ks[j], list);
    }
    forall i: nat | i < list.seconds ensures Ticked(w, ks, Second(i), list) {
      var j :| 0 <= j < |ks| && ks[j] == Second(i);
      assert Right(w[j], ks[j], list);
    }
  }

  lemma CoversFlats(ks: seq<Key>, list: List)
    requires forall i: nat :: i < list.firsts ==> First(i) in ks
    requires forall i: nat :: i < list.seconds ==> Second(i) in ks
    ensures Covers(Flats(ks, list.firsts), list.firsts + list.seconds)
  {
    var fs := Flats(ks, list.firsts);
    forall f | 0 <= f < list.firsts + list.seconds ensures f in fs {
      var k := if f < list.firsts then First(f) else Second(f - list.firsts);
      assert k in ks;
      var j :| 0 <= j < |ks| && ks[j] == k;
      assert fs[j] == f;
    }
  }

  /** As many right completions as there are keys, none repeating another, leave no key out. */
  lemma CompleteByCount(w: seq<Cqe>, ks: seq<Key>, list: List)
    requires |w| == |ks| == list.firsts + list.seconds && AllKnown(ks, list) && AllRight(w, ks, list, |w|)
    ensures Exactly(w, ks, list)
  {
    var n, fs := list.firsts + list.seconds, Flats(ks, list.firsts);
    assert ks[..|w|] == ks;
    forall j | 0 <= j < |w| ensures 0 <= fs[j] < n {
      assert Right(w[j], ks[j], list);
    }
    OntoByCount(fs, n);
    forall i: nat | i < list.firsts ensures First(i) in ks {
      var f: int := i;
      assert f in fs;
      var j :| 0 <= j < |fs| && fs[j] == f;
      assert ks[j] == First(i);
    }
    forall i: nat | i < list.seconds ensures Second(i) in ks {
      var f := list.firsts + i;
      assert f in fs;
      var j :| 0 <= j < |fs| && fs[j] == f;
      assert ks[j] == Second(i);
    }
    CompleteIsExact(w, ks, list);
  }

  lemma ExactIsComplete(w: seq<Cqe>, ks: seq<Key>, list: List)
    requires |w| == |ks| && AllKnown(ks, list) && Exactly(w, ks, list)
    ensures Complete(w, ks, list)
  {
    var n, fs := list.firsts + list.seconds, Flats(ks, list.firsts);
    CoversFlats(ks, list);
    ExactCover(fs, n);
    forall j | 0 <= j < |w| ensures Right(w[j], ks[j], list) {
      assert 0 <= fs[j] < n;
      assert Ticked(w, ks, ks[j], list);
      var j' :| 0 <= j' < |w| && ks[j'] == ks[j] && Right(w[j'], ks[j], list);
      assert fs[j'] == fs[j];
    }
    assert ks[..|w|] == ks;
    forall i, j | 0 <= i < j < |ks| ensures ks[i] != ks[j] {
      assert fs[i] != fs[j];
    }
  }

  /** The verdict of a whole check: no errors and two full masks mean that the window is exactly the list. */
  lemma CheckMeans(x: Errors, w: seq<Cqe>, ks: seq<Key>, list: List)
    requires |w| == |ks| && AllKnown(ks, list) && list.firsts <= 64 && list.seconds <= 64
    ensures var p := MarkAll(Blank(x), w, ks, list, |w|);
      && (p.errors == NONE && p.first == Ones(list.firsts) && p.second == Ones(list.seconds) <==>
            x == NONE && Exactly(w, ks, list))
      && (x == NONE && Exactly(w, ks, list) ==> p.firstGood == list.firsts && p.secondGood == list.seconds)
  {
    var p := MarkAll(Blank(x), w, ks, list, |w|);
    SeenMeans(x, w, ks, list, |w|);
    MarksMean(x, w, ks, list, |w|);
    OnesCount(list.firsts);
    OnesCount(list.seconds);
    assert ks[..|w|] == ks;
    MasksMean(p, ks, list);
    if Complete(w, ks, list) {
      CompleteIsExact(w, ks, list);
    }
    if Exactly(w, ks, list) {
      ExactIsComplete(w, ks, list);
    }
  }

  lemma MasksMean(p: Marks, ks: seq<Key>, list: List)
    requires AllKnown(ks, list) && list.firsts <= 64 && list.seconds <= 64
    requires forall i: nat :: (i in p.first <==> First(i) in ks) && (i in p.second <==> Second(i) in ks)
    ensures p.first == Ones(list.firsts) <==> forall i: nat :: i < list.firsts ==> First(i) in ks
    ensures p.second == Ones(list.seconds) <==> forall i: nat :: i < list.seconds ==> Second(i) in ks
  {
    assert forall i: nat :: First(i) in ks ==> i < list.firsts;
    assert forall i: nat :: Second(i) in ks ==> i < list.seconds;
  }

  /** The keys a way of reading user data finds in a window. */
  function KeysOf(w: seq<Cqe>, keyOf: u64 -> Key): (ks: seq<Key>)
    ensures |ks| == |w| && forall j :: 0 <= j < |w| ==> ks[j] == keyOf(w[j].userData)
  {
    seq(|w|, j requires 0 <= j < |w| => keyOf(w[j].userData))
  }

  /** One completion. */
  method TickOne(m: Marks, e: Cqe, k: Key, list: List) returns (r: Marks)
    requires Known(k, list)
    ensures r == Mark(m, e, k, list)
  {
    r := m;
    var x := m.errors;
    if e.flags != 0 {
      x := x.(badFlags := x.badFlags + 1);
    }
    if k.Stray? {
      x := x.(unexpected := x.unexpected + 1);
    } else {
      if (k.First? && k.i in m.first) || (k.Second? && k.i in m.second) {
        x := x.(duplicates := x.duplicates + 1);
      }
      if k.First? {
        r := r.(first := m.first + {k.i});
      } else {
        r := r.(second := m.second + {k.i});
      }
      if e.res != Wanted(k, list) {
        x := x.(badResults := x.badResults + 1);
      } else if k.First? {
        r := r.(firstGood := m.firstGood + 1);
      } else {
        r := r.(secondGood := m.secondGood + 1);
      }
    }
    r := r.(errors := x);
  }

  /** The loop all the checks share. */
  method Tick(w: seq<Cqe>, keyOf: u64 -> Key, list: List, errors: Errors) returns (m: Marks)
    requires forall ud :: Known(keyOf(ud), list)
    ensures m == MarkAll(Blank(errors), w, KeysOf(w, keyOf), list, |w|)
  {
    m := Blank(errors);
    for j := 0 to |w|
      invariant m == MarkAll(Blank(errors), w, KeysOf(w, keyOf), list, j)
    {
      m := TickOne(m, w[j], keyOf(w[j].userData), list);
    }
  }
}
