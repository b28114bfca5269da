/** The submission and completion rings shared with the kernel, with free-running 32-bit counters: both ways the
    programs fill the first, and the loops that copy out of the second. */
module Rings {
  import opened Words
  import opened Completions

  /** A ring size is a power of two below 2^32. */
  predicate IsRingSize(entries: nat) {
    0 < entries < TWO32 && IsPowerOfTwo(entries)
  }

  predicate IsPowerOfTwo(n: nat) {
    n == 1 || (n > 0 && n % 2 == 0 && IsPowerOfTwo(n / 2))
  }

  /** A power of two below another divides it: this is what makes `counter & mask` survive a wrap. */
  lemma {:induction false} PowersDivide(n: nat, m: nat) returns (q: nat)
    requires IsPowerOfTwo(n) && IsPowerOfTwo(m) && n <= m
    ensures m == n * q
  {
    if n == 1 {
      q := m;
    } else {
      q := PowersDivide(n / 2, m / 2);
      assert m == 2 * (m / 2) && n == 2 * (n / 2);
    }
  }

  lemma Doubled(n: nat) returns (m: nat)
    requires IsPowerOfTwo(n)
    ensures m == 2 * n && IsPowerOfTwo(m)
  {
    m := 2 * n;
    assert m / 2 == n;
  }

  lemma Times16(n: nat) returns (m: nat)
    requires IsPowerOfTwo(n)
    ensures m == 16 * n && IsPowerOfTwo(m)
  {
    m := Doubled(n);
    m := Doubled(m);
    m := Doubled(m);
    m := Doubled(m);
  }

  lemma TwoToThe32() returns (m: nat)
    ensures m == TWO32 && IsPowerOfTwo(m)
  {
    m := 1;
    m := Times16(m);
    m := Times16(m);
    m := Times16(m);
    m := Times16(m);
    m := Times16(m);
    m := Times16(m);
    m := Times16(m);
    m := Times16(m);
  }

  /** The slot k entries after a counter: the sum wraps at 32 bits, and the mask keeps its low bits. */
  function Slot(head: u32, k: nat, entries: nat): (s: nat)
    requires 0 < entries
    ensures s < entries
  {
    (head + k) % TWO32 % entries
  }

  /** Counters reduced modulo 2^32 name the same slots as counters that never wrap. */
  lemma WrapKeepsSlot(head: u32, k: nat, entries: nat)
    requires IsRingSize(entries)
    ensures Slot(head, k, entries) == (head + k) % entries
  {
    var m := TwoToThe32();
    var w := PowersDivide(entries, m);
    var c := head + k;
    assert c == TWO32 * (c / TWO32) + c % TWO32;
    assert TWO32 * (c / TWO32) == entries * (w * (c / TWO32)) by {
      assert TWO32 * (c / TWO32) == (entries * w) * (c / TWO32);
    }
    SameResidue(c, c % TWO32, w * (c / TWO32), entries);
  }

  lemma NearDiffer(a: nat, b: nat, m: nat)
    requires m > 0 && a < b < a + m
    ensures a % m != b % m
  {
    var d := b / m - a / m;
    assert b - a == m * d + (b % m - a % m);
    Scaled(m, d);
  }

  /** Entries in flight at the same time never share a slot, wherever the counters stand. */
  lemma SlotsDistinct(head: u32, i: nat, j: nat, entries: nat)
    requires IsRingSize(entries) && i < j < i + entries
    ensures Slot(head, i, entries) != Slot(head, j, entries)
  {
    WrapKeepsSlot(head, i, entries);
    WrapKeepsSlot(head, j, entries);
    NearDiffer(head + i, head + j, entries);
  }

  /** The index array names slots. */
  predicate Indexed(index: seq<nat>) {
    0 < |index| && forall i :: 0 <= i < |index| ==> index[i] < |index|
  }

  /** What the kernel finds in n entries from a counter on, through the index array. */
  function View<T>(slots: seq<T>, index: seq<nat>, head: u32, n: nat): (v: seq<T>)
    requires |slots| == |index| && Indexed(index)
    ensures |v| == n && forall k :: 0 <= k < n ==> v[k] == slots[index[Slot(head, k, |slots|)]]
  {
    seq(n, k requires 0 <= k < n => slots[index[Slot(head, k, |slots|)]])
  }

  /** An entry whose index is its own slot. */
  predicate Own(index: seq<nat>, head: u32, k: nat)
    requires 0 < |index|
  {
    index[Slot(head, k, |index|)] == Slot(head, k, |index|)
  }

  ghost predicate Owned(index: seq<nat>, head: u32, n: nat) {
    0 < |index| && forall k: nat :: k < n ==> Own(index, head, k)
  }

  /** Writing the next slot appends to the view, for every position of the counters. */
  lemma ViewGrows<T>(slots: seq<T>, index: seq<nat>, head: u32, n: nat, x: T)
    requires |slots| == |index| && Indexed(index) && IsRingSize(|slots|)
    requires n < |slots| && Owned(index, head, n)
    ensures var s := Slot(head, n, |slots|);
      && View(slots[s := x], index[s := s], head, n + 1) == View(slots, index, head, n) + [x]
      && Owned(index[s := s], head, n + 1)
  {
    var s := Slot(head, n, |slots|);
    forall k: nat | k < n ensures Slot(head, k, |slots|) != s && Own(index, head, k) {
      SlotsDistinct(head, k, n, |slots|);
    }
    GrowsAt(slots, index, head, n, x, s);
  }

  lemma GrowsAt<T>(slots: seq<T>, index: seq<nat>, head: u32, n: nat, x: T, s: nat)
    requires |slots| == |index| && Indexed(index) && s == Slot(head, n, |slots|)
    requires forall k: nat :: k < n ==> Slot(head, k, |slots|) != s && Own(index, head, k)
    ensures View(slots[s := x], index[s := s], head, n + 1) == View(slots, index, head, n) + [x]
    ensures Owned(index[s := s], head, n + 1)
  {
    var after := index[s := s];
    forall k: nat | k < n + 1 ensures Own(after, head, k) {
      assert k < n ==> Own(index, head, k);
    }
    var v, w := View(slots, index, head, n), View(slots[s := x], after, head, n + 1);
    forall k | 0 <= k < n ensures w[k] == v[k] {
      assert Own(index, head, k);
    }
    assert w == v + [x];
  }

  /** Rewriting the newest slot changes the last entry of the view and nothing else. */
  lemma ViewLast<T>(slots: seq<T>, index: seq<nat>, head: u32, n: nat, x: T)
    requires |slots| == |index| && Indexed(index) && IsRingSize(|slots|)
    requires n < |slots| && Owned(index, head, n + 1)
    ensures View(slots[Slot(head, n, |slots|) := x], index, head, n + 1) == View(slots, index, head, n + 1)[n := x]
  {
    assert Own(index, head, n);
    var v, w := View(slots, index, head, n + 1), View(slots[Slot(head, n, |slots|) := x], index, head, n + 1);
    forall k | 0 <= k < n ensures w[k] == v[k] {
      assert Own(index, head, k);
      SlotsDistinct(head, k, n, |slots|);
    }
  }

  lemma SlotShifts(head: u32, m: nat, k: nat, entries: nat)
    requires 0 < entries
    ensures Slot((head + m) % TWO32, k, entries) == Slot(head, m + k, entries)
  {
    assert ((head + m) % TWO32 + k) % TWO32 == (head + (m + k)) % TWO32;
  }

  lemma ViewShrinks<T>(slots: seq<T>, index: seq<nat>, head: u32, n: nat, m: nat)
    requires |slots| == |index| && Indexed(index) && m <= n && Owned(index, head, n)
    ensures View(slots, index, (head + m) % TWO32, n - m) == View(slots, index, head, n)[m..]
    ensures Owned(index, (head + m) % TWO32, n - m)
  {
    var h := (head + m) % TWO32;
    var v, w := View(slots, index, head, n)[m..], View(slots, index, h, n - m);
    forall k: nat | k < n - m ensures w[k] == v[k] && Own(index, h, k) {
      SlotShifts(head, m, k, |slots|);
      var j := m + k;
      assert Own(index, head, j);
    }
  }

  lemma LimitSlot(head: u32, limit: u32, entries: nat)
    requires 0 < entries
    ensures Slot(head, Sub32(limit, head), entries) == limit % entries
  {
    assert (head + Sub32(limit, head)) % TWO32 == limit;
  }

  lemma LimitMoves(head: u32, limit: u32)
    requires Sub32(limit, head) < TWO32 - 1
    ensures Sub32(Add32(limit, 1), head) == Sub32(limit, head) + 1
  {
  }

  lemma HeadMoves(head: u32, limit: u32, m: nat)
    requires m <= Sub32(limit, head)
    ensures Sub32(limit, (head + m) % TWO32) == Sub32(limit, head) - m
  {
  }

  lemma ViewReleased<T>(slots: seq<T>, index: seq<nat>, head: u32, limit: u32, m: nat)
    requires |slots| == |index| && Indexed(index) && m <= Sub32(limit, head) && Owned(index, head, Sub32(limit, head))
    ensures var h := Add32(head, m);
      && Sub32(limit, h) == Sub32(limit, head) - m && Owned(index, h, Sub32(limit, h))
      && View(slots, index, h, Sub32(limit, h)) == View(slots, index, head, Sub32(limit, head))[m..]
  {
    HeadMoves(head, limit, m);
    ViewShrinks(slots, index, head, Sub32(limit, head), m);
  }

  /** What a submission ring is for: a bounded queue. Entries are prepared, published, and taken by the kernel. */
  datatype Fifo<T> = Fifo(taken: seq<T>, queue: seq<T>, prepared: seq<T>)

  datatype Op<T> = Enqueue(entry: T) | Publish | Take(n: nat)

  function Accepts<T>(f: Fifo<T>, capacity: nat): bool {
    |f.queue| + |f.prepared| < capacity
  }

  /** One operation; deferred tells whether a new entry waits to be published. */
  function Apply<T>(f: Fifo<T>, op: Op<T>, capacity: nat, deferred: bool): Fifo<T> {
    match op
    case Enqueue(x) =>
      if !Accepts(f, capacity) then f
      else if deferred then f.(prepared := f.prepared + [x])
      else f.(queue := f.queue + [x])
    case Publish => f.(queue := f.queue + f.prepared, prepared := [])
    case Take(n) =>
      var m := if n <= |f.queue| then n else |f.queue|;
      f.(taken := f.taken + f.queue[..m], queue := f.queue[m..])
  }

  function Run<T>(f: Fifo<T>, ops: seq<Op<T>>, n: nat, capacity: nat, deferred: bool): Fifo<T>
    requires n <= |ops|
  {
    if n == 0 then f else Apply(Run(f, ops, n - 1, capacity, deferred), ops[n - 1], capacity, deferred)
  }

  /** The entries the program was given a slot for, in order. */
  function Accepted<T>(f: Fifo<T>, ops: seq<Op<T>>, n: nat, capacity: nat, deferred: bool): seq<T>
    requires n <= |ops|
  {
    if n == 0 then f.taken + f.queue + f.prepared else
      var g, op := Run(f, ops, n - 1, capacity, deferred), ops[n - 1];
      Accepted(f, ops, n - 1, capacity, deferred) +
      if op.Enqueue? && Accepts(g, capacity) then [op.entry] else []
  }

  /** In every run the queue stays within its capacity, and what the kernel has taken, followed by what is waiting,
      is exactly what was accepted, in the order it was accepted. */
  lemma {:induction false} RunKeepsOrder<T>(f: Fifo<T>, ops: seq<Op<T>>, n: nat, capacity: nat, deferred: bool)
    requires n <= |ops| && |f.queue| + |f.prepared| <= capacity && (deferred || f.prepared == [])
    ensures var g := Run(f, ops, n, capacity, deferred);
      && |g.queue| + |g.prepared| <= capacity && (deferred || g.prepared == [])
      && g.taken + g.queue + g.prepared == Accepted(f, ops, n, capacity, deferred)
  {
    if n != 0 {
      var m := n - 1;
      RunKeepsOrder(f, ops, m, capacity, deferred);
      ApplyKeepsOrder(Run(f, ops, m, capacity, deferred), ops[m], capacity, deferred);
    }
  }

  lemma ApplyKeepsOrder<T>(f: Fifo<T>, op: Op<T>, capacity: nat, deferred: bool)
    requires deferred || f.prepared == []
    ensures var g, all := Apply(f, op, capacity, deferred), f.taken + f.queue + f.prepared;
      g.taken + g.queue + g.prepared == if op.Enqueue? && Accepts(f, capacity) then all + [op.entry] else all
  {
  }

  /** The fields of a submission entry that the programs set. */
  datatype Sqe = Sqe(opcode: nat, fd: int, addr: u64, cancelFlags: nat, userData: u64)

  const ZERO: Sqe := Sqe(0, 0, 0, 0, 0)

  /** The ring itself. A deferred ring fills slots behind a private tail and publishes them together; the other
      publishes the tail with each slot, before the slot is filled. */
  class SubmissionRing {
    const slots: array<Sqe>
    const index: array<nat>
    const deferred: bool
    var head: u32
    var tail: u32
    var localTail: u32
    ghost var taken: seq<Sqe>

    function Limit(): u32
      reads this
    {
      if deferred then localTail else tail
    }

    ghost predicate Valid()
      reads this, slots, index
    {
      && slots.Length == index.Length && IsRingSize(slots.Length) && Indexed(index[..])
      && Sub32(tail, head) <= Sub32(Limit(), head) <= slots.Length
      && Owned(index[..], head, Sub32(Limit(), head))
    }

    /** The first n entries from head on. */
    ghost function Upto(n: nat): seq<Sqe>
      requires slots.Length == index.Length && Indexed(index[..])
      reads this, slots, index
    {
      View(slots[..], index[..], head, n)
    }

    ghost function State(): Fifo<Sqe>
      requires Valid()
      reads this, slots, index
    {
      var n := Sub32(tail, head);
      var all := Upto(Sub32(Limit(), head));
      Fifo(taken, all[..n], all[n..])
    }

    /** A fresh mapping: the kernel may start its counters anywhere. */
    constructor (entries: nat, deferred: bool, start: u32)
      requires IsRingSize(entries)
      ensures Valid() && fresh(slots) && fresh(index) && slots.Length == entries && this.deferred == deferred
      ensures State() == Fifo([], [], [])
    {
      slots := new Sqe[entries](_ => ZERO);
      index := new nat[entries](_ => 0);
      this.deferred := deferred;
      head, tail, localTail, taken := start, start, start, [];
      new;
      assert Sub32(start, start) == 0;
      assert Upto(0) == [];
    }

    /** The part the two disciplines share: clear the next slot and point the index array at it. */
    method Claim(limit: u32) returns (slot: nat)
      requires Valid() && limit == Limit() && Sub32(limit, head) < slots.Length
      modifies slots, index
      ensures slot == Slot(head, Sub32(limit, head), slots.Length) && Indexed(index[..])
      ensures Owned(index[..], head, Sub32(limit, head) + 1)
      ensures Upto(Sub32(limit, head) + 1) == old(Upto(Sub32(limit, head))) + [ZERO]
    {
      ghost var n, s, i := Sub32(limit, head), slots[..], index[..];
      slot := limit % slots.Length;
      LimitSlot(head, limit, slots.Length);
      ViewGrows(s, i, head, n, ZERO);
      index[slot] := slot;
      slots[slot] := ZERO;
      assert slots[..] == s[slot := ZERO] && index[..] == i[slot := slot];
    }

    method Fill(slot: nat, entry: Sqe, ghost n: nat)
      requires slots.Length == index.Length && IsRingSize(slots.Length) && Indexed(index[..])
      requires n < slots.Length && Owned(index[..], head, n + 1) && slot == Slot(head, n, slots.Length)
      modifies slots
      ensures Upto(n + 1) == old(Upto(n + 1))[n := entry]
    {
      ViewLast(slots[..], index[..], head, n, entry);
      ghost var s := slots[..];
      slots[slot] := entry;
      assert slots[..] == s[slot := entry];
    }

    /** queue_sqe (not deferred) and get_sqe (deferred), followed by the caller filling the slot. */
    method Enqueue(entry: Sqe) returns (ok: bool)
      requires Valid()
      modifies this`tail, this`localTail, slots, index
      ensures Valid() && ok == Accepts(old(State()), slots.Length)
      ensures State() == Apply(old(State()), Op.Enqueue(entry), slots.Length, deferred)
    {
      var limit := Limit();
      if Sub32(limit, head) >= slots.Length {
        return false;
      }
      ghost var n, before := Sub32(limit, head), Upto(Sub32(limit, head));
      var slot := Claim(limit);
      if deferred {
        localTail := Add32(limit, 1);
      } else {
        tail := Add32(limit, 1);
      }
      LimitMoves(head, limit);
      Fill(slot, entry, n);
      assert Upto(n + 1) == before + [entry];
      ok := true;
    }

    /** The tail store of submit_and_collect. */
    method Publish()
      requires Valid()
      modifies this`tail
      ensures Valid() && State() == Apply(old(State()), Op.Publish, slots.Length, deferred)
    {
      if deferred {
        tail := localTail;
      }
    }

    /** What the kernel reads of the next n entries, through the index array. */
    method Fetch(n: nat) returns (entries: seq<Sqe>)
      requires Valid() && n <= |State().queue|
      ensures entries == State().queue[..n]
    {
      entries := [];
      for i := 0 to n
        invariant entries == State().queue[..i]
      {
        entries := entries + [slots[index[Slot(head, i, slots.Length)]]];
      }
    }

    /** The kernel, inside io_uring_enter: it takes up to n published entries, oldest first. */
    method Take(n: nat)
      requires Valid()
      modifies this`head, this`taken
      ensures Valid() && State() == Apply(old(State()), Op.Take(n), slots.Length, deferred)
    {
      var m := if n <= Sub32(tail, head) then n else Sub32(tail, head);
      ghost var all := Sub32(Limit(), head);
      ghost var v := Upto(all);
      ViewReleased(slots[..], index[..], head, Limit(), m);
      HeadMoves(head, tail, m);
      taken := taken + v[..m];
      head := Add32(head, m);
    }
  }

  /** Any run of a ring, of either kind, from any position of its counters, is a run of the bounded queue. */
  method Drive(ring: SubmissionRing, ops: seq<Op<Sqe>>)
    requires ring.Valid()
    modifies ring, ring.slots, ring.index
    ensures ring.Valid()
    ensures ring.State() == Run(old(ring.State()), ops, |ops|, ring.slots.Length, ring.deferred)
  {
    for i := 0 to |ops|
      invariant ring.Valid()
      invariant ring.State() == Run(old(ring.State()), ops, i, ring.slots.Length, ring.deferred)
    {
      match ops[i]
      case Enqueue(x) =>
        var _ := ring.Enqueue(x);
      case Publish =>
        ring.Publish();
      case Take(n) =>
        ring.Take(n);
    }
  }

  /** Completion entries have no index array: each is its own slot. */
  function Identity(n: nat): (index: seq<nat>)
    requires n > 0
    ensures |index| == n && Indexed(index) && forall i :: 0 <= i < n ==> index[i] == i
  {
    seq(n, i requires 0 <= i < n => i)
  }

  lemma IdentityOwns(n: nat, head: u32, k: nat)
    requires n > 0
    ensures Owned(Identity(n), head, k)
  {
  }

  function PendingIn(slots: seq<Cqe>, head: u32, tail: u32): (w: seq<Cqe>)
    requires 0 < |slots|
    ensures |w| == Sub32(tail, head)
  {
    View(slots, Identity(|slots|), head, Sub32(tail, head))
  }

  lemma PendingReleased(slots: seq<Cqe>, head: u32, tail: u32, n: nat)
    requires 0 < |slots| && n <= Sub32(tail, head)
    ensures PendingIn(slots, Add32(head, n), tail) == PendingIn(slots, head, tail)[n..]
  {
    IdentityOwns(|slots|, head, Sub32(tail, head));
    ViewReleased(slots, Identity(|slots|), head, tail, n);
  }

  lemma Regroup<T>(posted: seq<T>, collected: seq<T>, w: seq<T>, n: nat)
    requires posted == collected + w && n <= |w|
    ensures posted == collected + w[..n] + w[n..]
  {
  }

  lemma PendingPosted(slots: seq<Cqe>, head: u32, tail: u32, e: Cqe)
    requires IsRingSize(|slots|) && Sub32(tail, head) < |slots|
    ensures PendingIn(slots[tail % |slots| := e], head, Add32(tail, 1)) == PendingIn(slots, head, tail) + [e]
  {
    var n, s, ids := Sub32(tail, head), tail % |slots|, Identity(|slots|);
    LimitSlot(head, tail, |slots|);
    LimitMoves(head, tail);
    IdentityOwns(|slots|, head, n);
    ViewGrows(slots, ids, head, n, e);
    assert ids[s := s] == ids;
  }

  class CompletionRing {
    const slots: array<Cqe>
    var head: u32
    var tail: u32
    ghost var posted: seq<Cqe>
    ghost var collected: seq<Cqe>

    ghost function Pending(): (w: seq<Cqe>)
      requires 0 < slots.Length
      reads this, slots
      ensures |w| == Sub32(tail, head)
    {
      PendingIn(slots[..], head, tail)
    }

    /** Nothing is lost or reordered: what was posted is what was collected, followed by what is waiting. */
    ghost predicate Valid()
      reads this, slots
    {
      && IsRingSize(slots.Length) && Sub32(tail, head) <= slots.Length
      && posted == collected + Pending()
    }

    constructor (entries: nat, start: u32)
      requires IsRingSize(entries)
      ensures Valid() && fresh(slots) && slots.Length == entries && Pending() == [] && posted == []
    {
      slots := new Cqe[entries](_ => Cqe(0, 0, 0));
      head, tail, posted, collected := start, start, [], [];
    }

    /** The kernel posts one completion, or counts an overflow. */
    method Post(e: Cqe) returns (ok: bool)
      requires Valid()
      modifies this`tail, this`posted, slots
      ensures Valid() && ok == (|old(Pending())| < slots.Length)
      ensures Pending() == if ok then old(Pending()) + [e] else old(Pending())
    {
      var n := Sub32(tail, head);
      if n >= slots.Length {
        return false;
      }
      var s := tail % slots.Length;
      ghost var before := slots[..];
      PendingPosted(before, head, tail, e);
      slots[s] := e;
      assert slots[..] == before[s := e];
      tail := Add32(tail, 1);
      posted := posted + [e];
      ok := true;
    }

    /** The copy loop. */
    method Copy(n: nat) returns (copy: seq<Cqe>)
      requires Valid() && n <= |Pending()|
      ensures copy == Pending()[..n]
    {
      copy := [];
      for i := 0 to n
        invariant copy == Pending()[..i]
      {
        assert Identity(slots.Length)[Slot(head, i, slots.Length)] == Slot(head, i, slots.Length);
        copy := copy + [slots[Add32(head, i) % slots.Length]];
      }
    }

    /** The head store that releases n entries. */
    method Release(n: nat)
      requires Valid() && n <= Sub32(tail, head)
      modifies this`head, this`collected
      ensures Valid() && Pending() == old(Pending())[n..] && collected == old(collected) + old(Pending())[..n]
    {
      ghost var w := Pending();
      PendingReleased(slots[..], head, tail, n);
      HeadMoves(head, tail, n);
      Regroup(posted, collected, w, n);
      head := Add32(head, n);
      collected := collected + w[..n];
    }
  }

  /** What fits of the completions that arrive while n are waiting; the rest overflow. */
  function Fitting(late: seq<Cqe>, room: nat): seq<Cqe> {
    if |late| <= room then late else late[..room]
  }

  lemma FittingGrows(late: seq<Cqe>, i: nat, room: nat)
    requires i < |late|
    ensures |Fitting(late[..i], room)| == if i < room then i else room
    ensures Fitting(late[..i + 1], room) ==
      if i < room then Fitting(late[..i], room) + [late[i]] else Fitting(late[..i], room)
  {
    assert late[..i + 1] == late[..i] + [late[i]];
  }

  /** The kernel posts completions in order, and counts those that find no room. */
  method PostAll(ring: CompletionRing, late: seq<Cqe>) returns (lost: nat)
    requires ring.Valid()
    modifies ring`tail, ring`posted, ring.slots
    ensures ring.Valid()
    ensures ring.Pending() == old(ring.Pending()) + Fitting(late, ring.slots.Length - |old(ring.Pending())|)
    ensures lost == |late| - |Fitting(late, ring.slots.Length - |old(ring.Pending())|)|
  {
    ghost var w, room := ring.Pending(), ring.slots.Length - |ring.Pending()|;
    lost := 0;
    for i := 0 to |late|
      invariant ring.Valid() && ring.Pending() == w + Fitting(late[..i], room)
      invariant lost == i - |Fitting(late[..i], room)|
    {
      FittingGrows(late, i, room);
      var ok := ring.Post(late[i]);
      lost := lost + if ok then 0 else 1;
    }
    assert late[..|late|] == late;
  }

  /** What there is to copy once the wait is over. */
  function Arrived(pending: seq<Cqe>, late: seq<Cqe>, capacity: nat, expected: nat): seq<Cqe>
    requires |pending| <= capacity
  {
    if |pending| >= expected then pending else pending + Fitting(late, capacity - |pending|)
  }

  /** wait_and_copy. It succeeds exactly when the expected number of completions is there, and then copies all of
      them in the order they were posted; otherwise it says by how many the number was wrong. Either way, once it has
      looked at them the ring is empty. */
  method WaitAndCopy(ring: CompletionRing, expected: nat, entered: bool, late: seq<Cqe>)
    returns (ok: bool, copy: seq<Cqe>, unexpected: nat, lost: nat)
    requires ring.Valid()
    modifies ring, ring.slots
    ensures ring.Valid()
    ensures var w := old(ring.Pending());
      lost == if |w| < expected && entered then |late| - |Fitting(late, ring.slots.Length - |w|)| else 0
    ensures var w := old(ring.Pending());
      var all := Arrived(w, late, ring.slots.Length, expected);
      && (|w| < expected && !entered ==> !ok && ring.Pending() == w && unexpected == 0)
      && (|w| >= expected || entered ==>
            && ring.Pending() == [] && ok == (|all| == expected) && (ok ==> copy == all)
            && unexpected == (if |all| >= expected then |all| - expected else expected - |all|))
  {
    copy, unexpected, lost := [], 0, 0;
    var available := Sub32(ring.tail, ring.head);
    if available < expected {
      if !entered {
        return false, [], 0, 0;
      }
      lost := PostAll(ring, late);
    }
    available := Sub32(ring.tail, ring.head);
    if available != expected {
      unexpected := if available > expected then available - expected else expected - available;
      ring.Release(available);
      return false, [], unexpected, lost;
    }
    copy := ring.Copy(expected);
    ring.Release(expected);
    ok := true;
  }
}
