/** The fill, collect and clear lifecycle of registration_cost.c over one fixed-file table. */
module Registration {
  import opened Words
  import opened Counting
  import opened Completions
  import opened Bitmaps
  import opened MsgRing

  // ---- draining one batch, giving up at the first surprise ----

  /** The results a window reports for the count operations of a batch. */
  ghost function Found(w: seq<Cqe>, tag: u64, base: nat, count: nat): (rs: seq<int>)
    requires IsTag(tag)
    ensures |rs| == count
  {
    seq(count, i requires 0 <= i < count => ResultAt(w, Keys(w, tag, base, count), i))
  }

  /** The window completes every operation of the batch once, without flags and acceptably. */
  ghost predicate Complete(w: seq<Cqe>, tag: u64, rule: Rule, base: nat, count: nat, rs: seq<int>)
    requires IsTag(tag)
  {
    && |rs| == count && Describes(w, tag, base, rs)
    && forall i :: 0 <= i < count ==> Accepts(rule, base + i, rs[i])
  }

  lemma CompleteIsUnique(w: seq<Cqe>, tag: u64, rule: Rule, base: nat, count: nat, rs: seq<int>)
    requires IsTag(tag) && base + count <= TWO48 && Complete(w, tag, rule, base, count, rs)
    ensures rs == Found(w, tag, base, count)
  {
    DescribedWindow(w, tag, base, rs);
    var ks := Keys(w, tag, base, count);
    forall i | 0 <= i < count ensures rs[i] == ResultAt(w, ks, i) {
      assert i in ks;
    }
  }

  /** What the drain has checked of the first n completions. */
  ghost predicate Checked(w: seq<Cqe>, ks: seq<int>, rule: Rule, base: nat, n: nat)
    requires n <= |w| == |ks|
  {
    && Distinct(ks[..n])
    && forall j :: 0 <= j < n ==> 0 <= ks[j] && w[j].flags == 0 && Accepts(rule, base + ks[j], w[j].res)
  }

  lemma CheckedIsComplete(w: seq<Cqe>, tag: u64, rule: Rule, base: nat, count: nat)
    requires IsTag(tag) && base + count <= TWO48 && |w| == count
    requires Checked(w, Keys(w, tag, base, count), rule, base, count)
    ensures Covers(Keys(w, tag, base, count), count)
    ensures Complete(w, tag, rule, base, count, Found(w, tag, base, count))
  {
    var ks, rs := Keys(w, tag, base, count), Found(w, tag, base, count);
    assert ks[..count] == ks;
    OntoByCount(ks, count);
    CleanWindow(w, tag, base, rs);
    forall i | 0 <= i < count ensures Accepts(rule, base + i, rs[i]) {
      assert ks[IndexOf(ks, i)] == i;
    }
  }

  lemma CompleteIsChecked(w: seq<Cqe>, tag: u64, rule: Rule, base: nat, count: nat, n: nat)
    requires IsTag(tag) && base + count <= TWO48 && n <= |w|
    requires Complete(w, tag, rule, base, count, Found(w, tag, base, count))
    ensures |w| == count && Checked(w, Keys(w, tag, base, count), rule, base, n)
  {
    DescribedWindow(w, tag, base, Found(w, tag, base, count));
  }

  lemma CheckedStep(w: seq<Cqe>, ks: seq<int>, rule: Rule, base: nat, n: nat)
    requires n < |w| == |ks|
    ensures Checked(w, ks, rule, base, n + 1) <==>
      && Checked(w, ks, rule, base, n) && 0 <= ks[n] && ks[n] !in ks[..n]
      && w[n].flags == 0 && Accepts(rule, base + ks[n], w[n].res)
  {
    assert ks[..n + 1] == ks[..n] + [ks[n]];
  }

  /** drain_count: false stands for bad(), which ends the program. */
  method DrainCount(w: seq<Cqe>, tag: u64, rule: Rule, base: nat, count: nat, result: array<int>, seen: array<bool>)
    returns (ok: bool)
    requires IsTag(tag) && base + count <= TWO48 && 1 <= count <= QD
    requires result.Length == QD && seen.Length == QD && forall i :: 0 <= i < QD ==> !seen[i]
    modifies result, seen
    ensures ok <==> Complete(w, tag, rule, base, count, Found(w, tag, base, count))
    ensures ok ==> result[..count] == Found(w, tag, base, count) && forall i :: 0 <= i < count ==> seen[i]
  {
    ghost var ks := Keys(w, tag, base, count);
    if |w| != count {
      return false;
    }
    for n := 0 to count
      invariant Checked(w, ks, rule, base, n)
      invariant forall i :: 0 <= i < QD ==> (seen[i] <==> i in ks[..n])
      invariant forall j :: 0 <= j < n ==> ks[j] < count && result[ks[j]] == w[j].res
    {
      var index := Decode(w[n].userData, tag, base, count);
      CheckedStep(w, ks, rule, base, n);
      if index == STRAY || seen[index] || w[n].flags != 0 || !Accepts(rule, base + index, w[n].res) {
        RejectedIsIncomplete(w, tag, rule, base, count, n + 1);
        return false;
      }
      assert ks[..n + 1] == ks[..n] + [ks[n]];
      seen[index] := true;
      result[index] := w[n].res;
    }
    CheckedIsComplete(w, tag, rule, base, count);
    AllFound(w, tag, base, count, result[..], seen[..]);
    ok := true;
  }

  lemma RejectedIsIncomplete(w: seq<Cqe>, tag: u64, rule: Rule, base: nat, count: nat, n: nat)
    requires IsTag(tag) && base + count <= TWO48 && n <= |w|
    requires !Checked(w, Keys(w, tag, base, count), rule, base, n)
    ensures !Complete(w, tag, rule, base, count, Found(w, tag, base, count))
  {
    if Complete(w, tag, rule, base, count, Found(w, tag, base, count)) {
      CompleteIsChecked(w, tag, rule, base, count, n);
    }
  }

  lemma AllFound(w: seq<Cqe>, tag: u64, base: nat, count: nat, result: seq<int>, seen: seq<bool>)
    requires IsTag(tag) && |w| == count <= QD == |result| == |seen| && Covers(Keys(w, tag, base, count), count)
    requires var ks := Keys(w, tag, base, count);
      && (forall i :: 0 <= i < QD ==> (seen[i] <==> i in ks[..count]))
      && (forall j :: 0 <= j < count ==> 0 <= ks[j] < count && result[ks[j]] == w[j].res)
    ensures result[..count] == Found(w, tag, base, count) && forall i :: 0 <= i < count ==> seen[i]
  {
    var ks := Keys(w, tag, base, count);
    assert ks[..count] == ks;
    forall i | 0 <= i < count ensures result[i] == Found(w, tag, base, count)[i] && seen[i] {
      assert ks[IndexOf(ks, i)] == i;
    }
  }

  // ---- runs of installed slots ----

  datatype Span = Span(offset: nat, count: nat)

  predicate InSpan(s: Span, x: nat) {
    s.offset <= x < s.offset + s.count
  }

  ghost predicate Covered(spans: seq<Span>, x: nat) {
    exists i :: 0 <= i < |spans| && InSpan(spans[i], x)
  }

  /** The spans are sorted, none is empty, and between any two there is a gap. */
  predicate Separated(spans: seq<Span>) {
    && (forall i :: 0 <= i < |spans| ==> spans[i].count > 0)
    && (forall i, j :: 0 <= i < j < |spans| ==> spans[i].offset + spans[i].count < spans[j].offset)
  }

  /** The spans are exactly the members below n. */
  ghost predicate Describe(spans: seq<Span>, words: seq<Word>, n: nat) {
    forall x: nat :: Covered(spans, x) <==> x < n && Has(words, x)
  }

  predicate Ascending(xs: seq<nat>) {
    forall i, j :: 0 <= i < j < |xs| ==> xs[i] < xs[j]
  }

  function Total(spans: seq<Span>): nat {
    if |spans| == 0 then 0 else Total(spans[..|spans| - 1]) + spans[|spans| - 1].count
  }

  lemma CoveredByMore(spans: seq<Span>, s: Span, x: nat)
    ensures Covered(spans + [s], x) <==> Covered(spans, x) || InSpan(s, x)
  {
    var more := spans + [s];
    if i :| 0 <= i < |more| && InSpan(more[i], x) {
      assert i == |spans| || InSpan(spans[i], x);
    }
    if i :| 0 <= i < |spans| && InSpan(spans[i], x) {
      assert InSpan(more[i], x);
    }
    assert more[|spans|] == s;
  }

  /** The last span grows by the slot just after it. */
  function Grow(spans: seq<Span>): (r: seq<Span>)
    requires |spans| > 0
    ensures |r| == |spans|
  {
    var last := |spans| - 1;
    spans[last := Span(spans[last].offset, spans[last].count + 1)]
  }

  lemma SpansApart(spans: seq<Span>, i: nat, k: nat)
    requires Separated(spans) && i < |spans| && k < |spans|
    ensures k < i ==> spans[k].offset + spans[k].count < spans[i].offset
    ensures i < k ==> spans[i].offset + spans[i].count < spans[k].offset
  {
  }

  lemma GrowStaysSeparated(front: seq<Span>, last: Span)
    requires Separated(front + [last])
    ensures Separated(front + [Span(last.offset, last.count + 1)])
  {
    var spans, grown := front + [last], front + [Span(last.offset, last.count + 1)];
    forall i | 0 <= i < |grown| ensures grown[i].count > 0 {
      assert spans[i].count > 0;
    }
    forall i, j | 0 <= i < j < |grown| ensures grown[i].offset + grown[i].count < grown[j].offset {
      SpansApart(spans, i, j);
    }
  }

  /** The spans cover exactly this set. */
  ghost predicate CoverSet(spans: seq<Span>, s: iset<nat>) {
    forall x: nat :: Covered(spans, x) <==> x in s
  }

  /** The members below n. */
  ghost function Below(words: seq<Word>, n: nat): iset<nat> {
    iset x: nat | x < n && Has(words, x)
  }

  lemma DescribeIsCover(spans: seq<Span>, words: seq<Word>, n: nat)
    ensures Describe(spans, words, n) <==> CoverSet(spans, Below(words, n))
  {
    var s := Below(words, n);
    assert forall x: nat :: x in s <==> x < n && Has(words, x);
  }

  lemma BelowGrows(words: seq<Word>, n: nat)
    requires Has(words, n)
    ensures Below(words, n + 1) == Below(words, n) + iset{n}
  {
  }

  lemma GrowCover(front: seq<Span>, last: Span, s: iset<nat>)
    requires CoverSet(front + [last], s)
    ensures CoverSet(front + [Span(last.offset, last.count + 1)], s + iset{last.offset + last.count})
  {
    var wider := Span(last.offset, last.count + 1);
    forall x: nat ensures Covered(front + [wider], x) <==> x in s || x == last.offset + last.count {
      CoveredByMore(front, last, x);
      CoveredByMore(front, wider, x);
      assert Covered(front + [last], x) <==> x in s;
    }
  }

  lemma AppendCover(spans: seq<Span>, s: iset<nat>, n: nat)
    requires CoverSet(spans, s)
    ensures CoverSet(spans + [Span(n, 1)], s + iset{n})
  {
    forall x: nat ensures Covered(spans + [Span(n, 1)], x) <==> x in s || x == n {
      CoveredByMore(spans, Span(n, 1), x);
    }
  }

  lemma GrowDescribes(spans: seq<Span>, words: seq<Word>, n: nat)
    requires |spans| > 0 && Describe(spans, words, n) && Has(words, n)
    requires spans[|spans| - 1].offset + spans[|spans| - 1].count == n
    ensures Describe(Grow(spans), words, n + 1)
  {
    var front, last := spans[..|spans| - 1], spans[|spans| - 1];
    assert spans == front + [last] && Grow(spans) == front + [Span(last.offset, last.count + 1)];
    DescribeIsCover(spans, words, n);
    DescribeIsCover(Grow(spans), words, n + 1);
    BelowGrows(words, n);
    GrowCover(front, last, Below(words, n));
  }

  lemma GrowSeparated(spans: seq<Span>)
    requires |spans| > 0 && Separated(spans)
    ensures Separated(Grow(spans))
  {
    var front, last := spans[..|spans| - 1], spans[|spans| - 1];
    assert spans == front + [last] && Grow(spans) == front + [Span(last.offset, last.count + 1)];
    GrowStaysSeparated(front, last);
  }

  lemma GrowTotal(spans: seq<Span>)
    requires |spans| > 0
    ensures Total(Grow(spans)) == Total(spans) + 1
  {
    assert Grow(spans)[..|spans| - 1] == spans[..|spans| - 1];
  }

  lemma EndsBelow(spans: seq<Span>, words: seq<Word>, n: nat, i: nat)
    requires Separated(spans) && Describe(spans, words, n) && i < |spans|
    ensures spans[i].offset + spans[i].count <= n
  {
    var x := spans[i].offset + spans[i].count - 1;
    assert InSpan(spans[i], x);
    assert Covered(spans, x);
  }

  lemma AppendDescribes(spans: seq<Span>, words: seq<Word>, n: nat)
    requires Describe(spans, words, n) && Has(words, n)
    ensures Describe(spans + [Span(n, 1)], words, n + 1)
  {
    DescribeIsCover(spans, words, n);
    DescribeIsCover(spans + [Span(n, 1)], words, n + 1);
    BelowGrows(words, n);
    AppendCover(spans, Below(words, n), n);
  }

  lemma AppendSeparated(spans: seq<Span>, words: seq<Word>, n: nat)
    requires Separated(spans) && Describe(spans, words, n)
    requires |spans| > 0 ==> spans[|spans| - 1].offset + spans[|spans| - 1].count != n
    ensures Separated(spans + [Span(n, 1)])
  {
    if |spans| > 0 {
      EndsBelow(spans, words, n, |spans| - 1);
      SeparatedMore(spans, n);
    }
  }

  lemma SeparatedMore(spans: seq<Span>, n: nat)
    requires Separated(spans) && |spans| > 0 && spans[|spans| - 1].offset + spans[|spans| - 1].count < n
    ensures Separated(spans + [Span(n, 1)])
  {
    var more := spans + [Span(n, 1)];
    forall i, j | 0 <= i < j < |more| ensures more[i].offset + more[i].count < more[j].offset {
      SpansApart(spans, |spans| - 1, i);
    }
  }

  lemma AppendTotal(spans: seq<Span>, n: nat)
    ensures Total(spans + [Span(n, 1)]) == Total(spans) + 1
  {
    assert (spans + [Span(n, 1)])[..|spans|] == spans;
  }

  /** The spans stand for the members below n, and hold the given number of slots. */
  ghost predicate Canonical(spans: seq<Span>, words: seq<Word>, n: nat, total: nat) {
    Separated(spans) && Describe(spans, words, n) && Total(spans) == total
  }

  /** One more slot: extend the last span or begin a new one. */
  function Push(spans: seq<Span>, slot: nat): seq<Span> {
    if |spans| > 0 && spans[|spans| - 1].offset + spans[|spans| - 1].count == slot then Grow(spans)
    else spans + [Span(slot, 1)]
  }

  lemma PushIsCanonical(spans: seq<Span>, words: seq<Word>, n: nat, total: nat)
    requires Canonical(spans, words, n, total) && Has(words, n)
    ensures Canonical(Push(spans, n), words, n + 1, total + 1)
  {
    if |spans| > 0 && spans[|spans| - 1].offset + spans[|spans| - 1].count == n {
      GrowDescribes(spans, words, n);
      GrowSeparated(spans);
      GrowTotal(spans);
    } else {
      AppendDescribes(spans, words, n);
      AppendSeparated(spans, words, n);
      AppendTotal(spans, n);
    }
  }

  lemma SkipIsCanonical(spans: seq<Span>, words: seq<Word>, n: nat, total: nat)
    requires Canonical(spans, words, n, total) && !Has(words, n)
    ensures Canonical(spans, words, n + 1, total)
  {
  }

  /** A canonical list of spans is as short as any list of spans that covers the same slots. */
  lemma CanonicalIsMinimal(spans: seq<Span>, words: seq<Word>, n: nat, others: seq<Span>)
    requires Separated(spans) && Describe(spans, words, n) && Describe(others, words, n)
    ensures |spans| <= |others|
  {
    forall i | 0 <= i < |spans| ensures Covered(others, spans[i].offset) {
      assert InSpan(spans[i], spans[i].offset);
      assert Covered(spans, spans[i].offset);
    }
    var homes := seq(|spans|, i requires 0 <= i < |spans| => HomeOf(others, spans[i].offset));
    forall i, j | 0 <= i < j < |spans| ensures homes[i] != homes[j] {
      // the slot just after span i is free, so no single span reaches from i to j
      var gap := spans[i].offset + spans[i].count;
      GapIsFree(spans, i, gap);
      SpansApart(spans, i, j);
      assert !InSpan(others[homes[i]], gap);
    }
    DistinctBound(homes, |others|);
  }

  ghost function HomeOf(spans: seq<Span>, x: nat): (i: nat)
    requires Covered(spans, x)
    ensures i < |spans| && InSpan(spans[i], x)
  {
    var i :| 0 <= i < |spans| && InSpan(spans[i], x);
    i
  }

  lemma GapIsFree(spans: seq<Span>, i: nat, gap: nat)
    requires Separated(spans) && i < |spans| && gap == spans[i].offset + spans[i].count
    ensures !Covered(spans, gap)
  {
    forall k | 0 <= k < |spans| ensures !InSpan(spans[k], gap) {
      SpansApart(spans, i, k);
    }
  }

  /** The installed slots below n, in ascending order. */
  function Members(words: seq<Word>, n: nat): seq<nat> {
    if n == 0 then [] else
      var xs := Members(words, n - 1);
      if Has(words, n - 1) then xs + [n - 1] else xs
  }

  lemma {:induction false} MembersAre(words: seq<Word>, n: nat)
    ensures forall x: nat :: x in Members(words, n) <==> x < n && Has(words, x)
    ensures Ascending(Members(words, n))
  {
    if n != 0 {
      MembersAre(words, n - 1);
      var xs := Members(words, n - 1);
      assert forall i :: 0 <= i < |xs| ==> xs[i] in xs;
    }
  }

  lemma {:induction false} MembersGrow(words: seq<Word>, m: nat, n: nat)
    requires m <= n
    ensures |Members(words, m)| <= |Members(words, n)|
  {
    if m < n {
      MembersGrow(words, m, n - 1);
    }
  }

  /** Two lists without repeats and with the same members are equally long. */
  lemma SameLength(a: seq<int>, b: seq<int>)
    requires Distinct(a) && Distinct(b) && forall x :: x in a <==> x in b
    ensures |a| == |b|
  {
    NoLonger(a, b);
    NoLonger(b, a);
  }

  lemma NoLonger(a: seq<int>, b: seq<int>)
    requires Distinct(a) && forall x :: x in a ==> x in b
    ensures |a| <= |b|
  {
    var ps := seq(|a|, i requires 0 <= i < |a| => IndexOf(b, a[i]));
    assert forall i :: 0 <= i < |a| ==> b[ps[i]] == a[i];
    DistinctBound(ps, |b|);
  }

  // ---- the table's bookkeeping ----

  /** What collect_slots has recorded once it has passed the slots below n. */
  ghost predicate Recorded(words: seq<Word>, n: nat, installed: seq<nat>, spans: seq<Span>) {
    installed == Members(words, n) && Canonical(spans, words, n, |installed|)
  }

  /** The loop of collect_slots: false stands for bad(). */
  method Collect(bitmap: array<Word>, slots: nat, used: nat, installed: array<nat>, spans: array<Span>)
    returns (ok: bool, spanCount: nat)
    requires slots <= 64 * bitmap.Length && installed.Length == used && spans.Length == used
    modifies installed, spans
    ensures ok <==> |Members(bitmap[..], slots)| == used
    ensures ok ==> installed[..] == Members(bitmap[..], slots)
    ensures spanCount <= used && (ok ==> Canonical(spans[..spanCount], bitmap[..], slots, used))
  {
    var count := 0;
    spanCount := 0;
    ghost var words := bitmap[..];
    for slot := 0 to slots
      invariant spanCount <= count <= used
      invariant Recorded(words, slot, installed[..count], spans[..spanCount])
    {
      if slot % 64 !in bitmap[slot / 64] {
        SkipIsCanonical(spans[..spanCount], words, slot, count);
        continue;
      }
      if count == used {
        MembersGrow(words, slot + 1, slots);
        return false, spanCount;
      }
      spanCount := Record(words, slot, installed, count, spans, spanCount);
      count := count + 1;
    }
    ok := count == used;
  }

  method Record(ghost words: seq<Word>, slot: nat, installed: array<nat>, count: nat, spans: array<Span>,
                spanCount: nat)
    returns (spanCount': nat)
    requires spanCount <= count < installed.Length == spans.Length && Has(words, slot)
    requires Recorded(words, slot, installed[..count], spans[..spanCount])
    modifies installed, spans
    ensures spanCount' <= count + 1
    ensures Recorded(words, slot + 1, installed[..count + 1], spans[..spanCount'])
  {
    PushIsCanonical(spans[..spanCount], words, slot, count);
    ghost var before := installed[..count];
    installed[count] := slot;
    assert installed[..count + 1] == before + [slot];
    spanCount' := PushSpan(spans, spanCount, slot);
  }

  method PushSpan(spans: array<Span>, spanCount: nat, slot: nat) returns (spanCount': nat)
    requires spanCount < spans.Length
    modifies spans
    ensures spanCount' <= spans.Length && spanCount' <= spanCount + 1
    ensures spans[..spanCount'] == Push(old(spans[..spanCount]), slot)
  {
    if spanCount > 0 && spans[spanCount - 1].offset + spans[spanCount - 1].count == slot {
      spans[spanCount - 1] := Span(spans[spanCount - 1].offset, spans[spanCount - 1].count + 1);
      spanCount' := spanCount;
    } else {
      spans[spanCount] := Span(slot, 1);
      spanCount' := spanCount + 1;
    }
  }
}
