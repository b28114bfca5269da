/** The user data of io_uring_cancel_round.c, and how its checks recognise it. */
module CancelTags {
  import opened Words
  import opened Completions
  import opened Checklist

  const PENDING: nat := 32
  const DECOYS: nat := 8
  const ENOENT: int := 2
  const ECANCELED: int := 125

  datatype Kind = Poll | Cancel | Decoy | Cleanup | Bulk | Never

  function Code(kind: Kind): (c: nat)
    ensures 1 <= c < 16
  {
    match kind
    case Poll => 1
    case Cancel => 2
    case Decoy => 3
    case Cleanup => 4
    case Bulk => 5
    case Never => 15
  }

  /** One batch of one round of one profile. */
  datatype Place = Place(profile: nat, round: nat, batch: nat)

  predicate IsPlace(p: Place) {
    p.profile < 16
  }

  /** make_tag. The fields occupy bits 60 up, 56 to 59, 44 to 55, 24 to 43 and 0 to 23, so their disjunction is
      their sum. */
  function Tag(kind: Kind, p: Place, index: nat): u64
    requires IsPlace(p) && index < PENDING
  {
    Fields(Code(kind), p.profile, p.round % 0x1000, p.batch % 0x10_0000, index)
  }

  function Fields(code: nat, profile: nat, round: nat, batch: nat, index: nat): u64
    requires code < 16 && profile < 16 && round < 0x1000 && batch < 0x10_0000 && index < 0x100_0000
  {
    code * 0x1000_0000_0000_0000 + profile * 0x100_0000_0000_0000 + round * 0x1000_0000_0000 + batch * 0x100_0000 +
    index
  }

  /** Two tags are equal only if every field agrees, the round modulo 4096 and the batch modulo 2^20. In particular
      the tags that are never queued match no poll of any place. */
  lemma TagsAgree(k: Kind, p: Place, i: nat, l: Kind, q: Place, j: nat)
    requires IsPlace(p) && IsPlace(q) && i < PENDING && j < PENDING
    ensures Tag(k, p, i) == Tag(l, q, j) <==>
      k == l && p.profile == q.profile && p.round % 0x1000 == q.round % 0x1000 &&
      p.batch % 0x10_0000 == q.batch % 0x10_0000 && i == j
  {
    FieldsAgree(Code(k), p.profile, p.round % 0x1000, p.batch % 0x10_0000, i,
                Code(l), q.profile, q.round % 0x1000, q.batch % 0x10_0000, j);
    CodesAgree(k, l);
  }

  lemma CodesAgree(k: Kind, l: Kind)
    ensures Code(k) == Code(l) <==> k == l
  {
  }

  lemma FieldsAgree(c: nat, f: nat, r: nat, b: nat, i: nat, d: nat, g: nat, s: nat, a: nat, j: nat)
    requires c < 16 && d < 16 && f < 16 && g < 16 && r < 0x1000 && s < 0x1000
    requires b < 0x10_0000 && a < 0x10_0000 && i < 0x100_0000 && j < 0x100_0000
    ensures Fields(c, f, r, b, i) == Fields(d, g, s, a, j) <==> c == d && f == g && r == s && b == a && i == j
  {
    Digits(c, f, d, g, 16);
    Digits(c * 16 + f, r, d * 16 + g, s, 0x1000);
    var x, y := (c * 16 + f) * 0x1000 + r, (d * 16 + g) * 0x1000 + s;
    Digits(x, b, y, a, 0x10_0000);
    Digits(x * 0x10_0000 + b, i, y * 0x10_0000 + a, j, 0x100_0000);
  }

  lemma Digits(a: int, x: int, b: int, y: int, m: nat)
    requires 0 <= x < m && 0 <= y < m
    ensures a * m + x == b * m + y <==> a == b && x == y
  {
    var d := a - b;
    assert a * m - b * m == d * m;
    assert d > 0 ==> d * m >= m;
    assert d < 0 ==> d * m + m <= 0;
  }

  /** The two kinds a check looks for, and how many of each. */
  datatype Pattern = Pattern(first: Kind, second: Kind, list: List)

  predicate IsPattern(t: Pattern) {
    t.first != t.second && t.list.firsts <= PENDING && t.list.seconds <= PENDING
  }

  const HIT: Pattern := Pattern(Poll, Cancel, List(PENDING, PENDING, -ECANCELED, 0))
  const MISS: Pattern := Pattern(Poll, Cancel, List(0, PENDING, -ECANCELED, -ENOENT))
  const CLEANUP: Pattern := Pattern(Poll, Cleanup, List(PENDING, PENDING, -ECANCELED, 0))
  const FD_ALL: Pattern := Pattern(Poll, Bulk, List(PENDING, 1, -ECANCELED, PENDING))
  const DECOY_CLEANUP: Pattern := Pattern(Decoy, Cleanup, List(DECOYS, DECOYS, -ECANCELED, 0))

  /** The search over the indices, from i on. */
  function Search(userData: u64, t: Pattern, p: Place, i: nat): (k: Key)
    requires IsPattern(t) && IsPlace(p) && i <= PENDING
    ensures Known(k, t.list)
    decreases PENDING - i
  {
    if i == PENDING then Stray
    else if i < t.list.firsts && userData == Tag(t.first, p, i) then First(i)
    else if i < t.list.seconds && userData == Tag(t.second, p, i) then Second(i)
    else Search(userData, t, p, i + 1)
  }

  /** The search finds the request whose user data it is given, and nothing else. */
  lemma {:induction false} SearchFinds(userData: u64, t: Pattern, p: Place, i: nat, n: nat)
    requires IsPattern(t) && IsPlace(p) && i <= n < PENDING
    ensures n < t.list.firsts ==> (Search(userData, t, p, i) == First(n) <==> userData == Tag(t.first, p, n))
    ensures n < t.list.seconds ==> (Search(userData, t, p, i) == Second(n) <==> userData == Tag(t.second, p, n))
    decreases PENDING - i
  {
    TagsAgree(t.first, p, i, t.first, p, n);
    TagsAgree(t.first, p, i, t.second, p, n);
    TagsAgree(t.second, p, i, t.first, p, n);
    TagsAgree(t.second, p, i, t.second, p, n);
    if i < n {
      SearchFinds(userData, t, p, i + 1, n);
    } else {
      SearchIsLater(userData, t, p, i + 1);
    }
  }

  lemma {:induction false} SearchIsLater(userData: u64, t: Pattern, p: Place, i: nat)
    requires IsPattern(t) && IsPlace(p) && i <= PENDING
    ensures var k := Search(userData, t, p, i); k.Stray? || k.i >= i
    decreases PENDING - i
  {
    if i < PENDING {
      SearchIsLater(userData, t, p, i + 1);
    }
  }

  function KeysAt(w: seq<Cqe>, t: Pattern, p: Place): (ks: seq<Key>)
    requires IsPattern(t) && IsPlace(p)
    ensures |ks| == |w| && forall j :: 0 <= j < |w| ==> ks[j] == Search(w[j].userData, t, p, 0)
  {
    seq(|w|, j requires 0 <= j < |w| => Search(w[j].userData, t, p, 0))
  }

  /** The window holds exactly one completion for each request of the pattern, with its result and no flags. */
  ghost predicate Answers(w: seq<Cqe>, t: Pattern, p: Place)
    requires IsPattern(t) && IsPlace(p)
  {
    && |w| == t.list.firsts + t.list.seconds
    && (forall i: nat :: i < t.list.firsts ==> Cqe(Tag(t.first, p, i), t.list.firstRes, 0) in w)
    && (forall i: nat :: i < t.list.seconds ==> Cqe(Tag(t.second, p, i), t.list.secondRes, 0) in w)
  }

  lemma TickedFirst(w: seq<Cqe>, t: Pattern, p: Place, i: nat)
    requires IsPattern(t) && IsPlace(p) && i < t.list.firsts
    ensures Ticked(w, KeysAt(w, t, p), First(i), t.list) <==> Cqe(Tag(t.first, p, i), t.list.firstRes, 0) in w
  {
    var ks, c := KeysAt(w, t, p), Cqe(Tag(t.first, p, i), t.list.firstRes, 0);
    forall j | 0 <= j < |w| ensures ks[j] == First(i) && Right(w[j], First(i), t.list) <==> w[j] == c {
      SearchFinds(w[j].userData, t, p, 0, i);
    }
    if c in w {
      var j :| 0 <= j < |w| && w[j] == c;
      assert ks[j] == First(i);
    }
  }

  lemma TickedSecond(w: seq<Cqe>, t: Pattern, p: Place, i: nat)
    requires IsPattern(t) && IsPlace(p) && i < t.list.seconds
    ensures Ticked(w, KeysAt(w, t, p), Second(i), t.list) <==> Cqe(Tag(t.second, p, i), t.list.secondRes, 0) in w
  {
    var ks, c := KeysAt(w, t, p), Cqe(Tag(t.second, p, i), t.list.secondRes, 0);
    forall j | 0 <= j < |w| ensures ks[j] == Second(i) && Right(w[j], Second(i), t.list) <==> w[j] == c {
      SearchFinds(w[j].userData, t, p, 0, i);
    }
    if c in w {
      var j :| 0 <= j < |w| && w[j] == c;
      assert ks[j] == Second(i);
    }
  }

  lemma ExactAnswers(w: seq<Cqe>, t: Pattern, p: Place)
    requires IsPattern(t) && IsPlace(p)
    ensures Exactly(w, KeysAt(w, t, p), t.list) <==> Answers(w, t, p)
  {
    forall i: nat | i < t.list.firsts
      ensures Ticked(w, KeysAt(w, t, p), First(i), t.list) <==> Cqe(Tag(t.first, p, i), t.list.firstRes, 0) in w
    {
      TickedFirst(w, t, p, i);
    }
    forall i: nat | i < t.list.seconds
      ensures Ticked(w, KeysAt(w, t, p), Second(i), t.list) <==> Cqe(Tag(t.second, p, i), t.list.secondRes, 0) in w
    {
      TickedSecond(w, t, p, i);
    }
  }
}
