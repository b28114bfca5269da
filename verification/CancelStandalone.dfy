/** check_cqes of io_uring_cancel_miss_standalone.c. */
module CancelStandalone {
  import opened Words
  import opened Completions
  import opened Bitmaps
  import opened Checklist

  const PENDING: nat := 32
  const ENOENT: int := 2
  const ECANCELED: int := 125
  const KIND_UNIT: nat := 0x1000_0000_0000_0000

  datatype Kind = Poll | Cancel | Cleanup | Never

  function Code(kind: Kind): (c: nat)
    ensures 1 <= c < 16
  {
    match kind
    case Poll => 1
    case Cancel => 2
    case Cleanup => 3
    case Never => 15
  }

  /** make_tag: the kind in bits 60 up, the sequence from bit 8, the index below. */
  function Tag(kind: Kind, sequence: nat, index: nat): u64
    requires sequence < 0x10_0000_0000_0000 && index < PENDING
  {
    Code(kind) * KIND_UNIT + sequence * 0x100 + index
  }

  /** How check_cqes takes user data apart. */
  function KeyOf(userData: u64, sequence: nat, cleanup: bool): (k: Key)
    ensures Known(k, ListOf(cleanup))
  {
    var code, seqOf, i := userData / KIND_UNIT, userData % KIND_UNIT / 0x100, userData % 0x100;
    if seqOf != sequence || i >= PENDING then Stray
    else if !cleanup && code == Code(Cancel) then Second(i)
    else if cleanup && code == Code(Poll) then First(i)
    else if cleanup && code == Code(Cleanup) then Second(i)
    else Stray
  }

  function ListOf(cleanup: bool): List {
    if cleanup then List(PENDING, PENDING, -ECANCELED, 0) else List(0, PENDING, -ECANCELED, -ENOENT)
  }

  /** Taking apart inverts make_tag: a key is found for exactly the tags of this sequence and mode. */
  lemma KeysInvertTags(userData: u64, sequence: nat, cleanup: bool, i: nat)
    requires sequence < 0x10_0000_0000_0000 && i < PENDING
    ensures KeyOf(userData, sequence, cleanup) == First(i) <==> cleanup && userData == Tag(Poll, sequence, i)
    ensures KeyOf(userData, sequence, cleanup) == Second(i) <==>
      userData == Tag(if cleanup then Cleanup else Cancel, sequence, i)
  {
    var rest := userData % KIND_UNIT;
    assert userData == userData / KIND_UNIT * KIND_UNIT + rest;
    assert rest == rest / 0x100 * 0x100 + userData % 0x100;
  }

  lemma PrefixRight(w: seq<Cqe>, ks: seq<Key>, list: List, n: nat)
    requires n <= |w| == |ks| && AllRight(w, ks, list, |w|)
    ensures AllRight(w, ks, list, n)
  {
    assert ks[..|w|] == ks;
  }

  /** check_cqes: it aborts unless the window is exactly the list, in either mode. */
  method CheckCqes(w: seq<Cqe>, sequence: nat, cleanup: bool) returns (ok: bool)
    ensures ok <==>
      Exactly(w, KeysOf(w, (userData: u64) => KeyOf(userData, sequence, cleanup)), ListOf(cleanup))
  {
    var list := ListOf(cleanup);
    ghost var ks := KeysOf(w, (userData: u64) => KeyOf(userData, sequence, cleanup));
    var m := Blank(NONE);
    for j := 0 to |w|
      invariant m == MarkAll(Blank(NONE), w, ks, list, j) && m.errors == NONE
    {
      m := TickOne(m, w[j], KeyOf(w[j].userData, sequence, cleanup), list);
      if m.errors != NONE {
        MarksMean(NONE, w, ks, list, j + 1);
        if Exactly(w, ks, list) {
          ExactIsComplete(w, ks, list);
          PrefixRight(w, ks, list, j + 1);
        }
        return false;
      }
    }
    CheckMeans(NONE, w, ks, list);
    ok := m.second == Ones(PENDING) && (!cleanup || m.first == Ones(PENDING));
    MarksMean(NONE, w, ks, list, |w|);
    SeenMeans(NONE, w, ks, list, |w|);
    assert !cleanup ==> m.first == {};
  }
}
