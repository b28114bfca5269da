/** fixed_io of network_cost.c: moving one payload per connection in the face of short completions. */
module FixedIo {
  import opened Words
  import opened Counting
  import opened Completions

  const QD: nat := 64
  const PAYLOAD: nat := 64

  // ---- what the kernel does with the entries it is given ----

  /** A submission entry: the fixed file, an address (a place in one of the buffers), a length and the user data. */
  datatype Sqe = Sqe(slot: nat, buffer: nat, addr: nat, len: nat, userData: u64)

  /** What the entries act on: per fixed file, how many incoming bytes have been taken and all that was sent; and the
      program's buffers. */
  datatype World = World(taken: seq<nat>, sent: seq<seq<nat>>, buffers: seq<seq<nat>>)

  /** n bytes of the stream on a slot, from the given position. */
  function Bytes(incoming: (nat, nat) -> nat, slot: nat, start: nat, n: nat): (b: seq<nat>)
    ensures |b| == n
  {
    seq(n, k requires 0 <= k < n => incoming(slot, start + k))
  }

  predicate InBounds(w: World, e: Sqe, r: nat) {
    e.slot < |w.taken| == |w.sent| && e.buffer < |w.buffers| && e.addr + r <= |w.buffers[e.buffer]|
  }

  /** The memory a receive of r bytes leaves. */
  function Filled(incoming: (nat, nat) -> nat, w: World, e: Sqe, r: nat): (b: seq<nat>)
    requires InBounds(w, e, r)
    ensures |b| == |w.buffers[e.buffer]|
  {
    var b := w.buffers[e.buffer];
    b[..e.addr] + Bytes(incoming, e.slot, w.taken[e.slot], r) + b[e.addr + r..]
  }

  /** r bytes move between the file and the address that the entry names. */
  function Moved(incoming: (nat, nat) -> nat, sending: bool, w: World, e: Sqe, r: nat): World
    requires InBounds(w, e, r)
  {
    if sending then
      w.(sent := w.sent[e.slot := w.sent[e.slot] + w.buffers[e.buffer][e.addr..e.addr + r]])
    else
      w.(taken := w.taken[e.slot := w.taken[e.slot] + r], buffers := w.buffers[e.buffer := Filled(incoming, w, e, r)])
  }

  /** The first entry with this user data, or the number of entries. */
  function Find(entries: seq<Sqe>, userData: u64): (p: nat)
    ensures p <= |entries| && (p < |entries| ==> entries[p].userData == userData)
    ensures forall q :: 0 <= q < p ==> entries[q].userData != userData
  {
    if entries == [] || entries[0].userData == userData then 0 else
      var p := 1 + Find(entries[1..], userData);
      assert forall q :: 1 <= q < p ==> entries[q] == entries[1..][q - 1];
      p
  }

  predicate Serves(entries: seq<Sqe>, w: World, c: Cqe) {
    var p := Find(entries, c.userData);
    p < |entries| && 0 < c.res <= entries[p].len && InBounds(w, entries[p], c.res)
  }

  /** What lies behind one completion: the entry it carries the user data of was served for that many bytes. A
      completion that answers no entry, or more than an entry asked for, moves nothing. */
  function ServeOne(incoming: (nat, nat) -> nat, sending: bool, entries: seq<Sqe>, w: World, c: Cqe): World {
    if Serves(entries, w, c) then Moved(incoming, sending, w, entries[Find(entries, c.userData)], c.res) else w
  }

  function ServeAll(incoming: (nat, nat) -> nat, sending: bool, entries: seq<Sqe>, w: World, cqes: seq<Cqe>, n: nat)
    : World
    requires n <= |cqes|
  {
    if n == 0 then w
    else ServeOne(incoming, sending, entries, ServeAll(incoming, sending, entries, w, cqes, n - 1), cqes[n - 1])
  }

  /** The kernel's side of every connection, by fixed-file slot. */
  class Connections {
    const incoming: (nat, nat) -> nat
    var taken: seq<nat>
    var sent: seq<seq<nat>>

    constructor (incoming: (nat, nat) -> nat, slots: nat)
      ensures this.incoming == incoming && |taken| == |sent| == slots
      ensures forall s :: 0 <= s < slots ==> taken[s] == 0 && sent[s] == []
    {
      this.incoming := incoming;
      taken := seq(slots, _ => 0);
      sent := seq(slots, _ => []);
    }

    ghost function With(buffers: array<seq<nat>>): World
      reads this, buffers
    {
      World(taken, sent, buffers[..])
    }

    method Move(sending: bool, e: Sqe, r: nat, buffers: array<seq<nat>>)
      requires InBounds(With(buffers), e, r)
      modifies this, buffers
      ensures With(buffers) == Moved(incoming, sending, old(With(buffers)), e, r)
    {
      var b := buffers[e.buffer];
      if sending {
        sent := sent[e.slot := sent[e.slot] + b[e.addr..e.addr + r]];
      } else {
        ghost var after := With(buffers).buffers[e.buffer := Filled(incoming, With(buffers), e, r)];
        buffers[e.buffer] := b[..e.addr] + Bytes(incoming, e.slot, taken[e.slot], r) + b[e.addr + r..];
        assert buffers[..] == after;
        taken := taken[e.slot := taken[e.slot] + r];
      }
    }

    /** The kernel serves a submission, before the program looks at any completion. */
    method Serve(sending: bool, entries: seq<Sqe>, cqes: seq<Cqe>, buffers: array<seq<nat>>)
      requires |taken| == |sent|
      modifies this, buffers
      ensures With(buffers) == ServeAll(incoming, sending, entries, old(With(buffers)), cqes, |cqes|)
    {
      for j := 0 to |cqes|
        invariant With(buffers) == ServeAll(incoming, sending, entries, old(With(buffers)), cqes, j)
      {
        if Serves(entries, World(taken, sent, buffers[..]), cqes[j]) {
          Move(sending, entries[Find(entries, cqes[j].userData)], cqes[j].res, buffers);
        }
      }
    }
  }

  /** A kernel answers the entries of a pass. */
  type Kernel = (nat, seq<Sqe>) -> seq<Cqe>

  /** Entries that can be told apart, each for something. */
  predicate Sensible(entries: seq<Sqe>) {
    && (forall p :: 0 <= p < |entries| ==> entries[p].len > 0)
    && forall p, q :: 0 <= p < q < |entries| ==> entries[p].userData != entries[q].userData
  }

  predicate Answers(c: Cqe, e: Sqe) {
    c.userData == e.userData && c.flags == 0 && 0 < c.res <= e.len
  }

  predicate AnswersOne(c: Cqe, entries: seq<Sqe>) {
    exists p :: 0 <= p < |entries| && Answers(c, entries[p])
  }

  predicate ToldApart(cqes: seq<Cqe>) {
    forall i, j :: 0 <= i < j < |cqes| ==> cqes[i].userData != cqes[j].userData
  }

  /** One completion per submitted entry, in any order, each for some positive part of what was asked. */
  ghost predicate Answered(cqes: seq<Cqe>, entries: seq<Sqe>) {
    && |cqes| == |entries| && ToldApart(cqes)
    && forall j :: 0 <= j < |cqes| ==> AnswersOne(cqes[j], entries)
  }

  /** A kernel that serves whatever it is asked. */
  ghost predicate Honest(kernel: Kernel) {
    forall pass: nat, entries: seq<Sqe> :: Sensible(entries) ==> Answered(kernel(pass, entries), entries)
  }

  /** A kernel that answers the entries of a pass in order, each for any positive part of what was asked. */
  function AnyPart(entries: seq<Sqe>, part: nat -> nat): (w: seq<Cqe>)
    ensures |w| == |entries|
    ensures forall j :: 0 <= j < |w| ==> w[j] == Cqe(entries[j].userData, SomeOf(entries[j].len, part(j)), 0)
  {
    seq(|entries|, j requires 0 <= j < |entries| => Cqe(entries[j].userData, SomeOf(entries[j].len, part(j)), 0))
  }

  function SomeOf(len: nat, part: nat): (r: nat)
    ensures len > 0 ==> 1 <= r <= len
  {
    if len == 0 then 0 else 1 + part % len
  }

  /** Every such kernel is honest. */
  lemma AnyPartIsHonest(part: (nat, nat) -> nat) returns (kernel: Kernel)
    ensures forall pass: nat, es: seq<Sqe> :: kernel(pass, es) == AnyPart(es, j => part(pass, j))
    ensures Honest(kernel)
  {
    kernel := (pass: nat, es: seq<Sqe>) => AnyPart(es, j => part(pass, j));
    forall pass: nat, es: seq<Sqe> | Sensible(es) ensures Answered(kernel(pass, es), es) {
      AnyPartAnswers(es, j => part(pass, j));
    }
  }

  lemma AnyPartAnswers(entries: seq<Sqe>, part: nat -> nat)
    requires Sensible(entries)
    ensures Answered(AnyPart(entries, part), entries)
  {
    var w := AnyPart(entries, part);
    forall j | 0 <= j < |w| ensures AnswersOne(w[j], entries) {
      assert Answers(w[j], entries[j]);
    }
    forall i, j | 0 <= i < j < |w| ensures w[i].userData != w[j].userData {
      assert entries[i].userData != entries[j].userData;
    }
  }

  // ---- what the program submits ----

  predicate Offsets(offsets: seq<nat>) {
    forall i :: 0 <= i < |offsets| ==> offsets[i] <= PAYLOAD
  }

  /** The requests still unfinished, out of the first n. */
  function Unfinished(offsets: seq<nat>, n: nat): (u: nat)
    requires n <= |offsets|
    ensures u <= n
  {
    if n == 0 then 0 else Unfinished(offsets, n - 1) + if offsets[n - 1] == PAYLOAD then 0 else 1
  }

  /** The bytes still to be moved, out of the first n requests. */
  function BytesLeft(offsets: seq<nat>, n: nat): nat
    requires n <= |offsets| && Offsets(offsets)
  {
    if n == 0 then 0 else BytesLeft(offsets, n - 1) + (PAYLOAD - offsets[n - 1])
  }

  lemma {:induction false} AdvanceOne(offsets: seq<nat>, i: nat, r: nat, n: nat)
    requires n <= |offsets| && Offsets(offsets)
    requires i < |offsets| && 1 <= r <= PAYLOAD - offsets[i]
    ensures var after := offsets[i := offsets[i] + r];
      && BytesLeft(after, n) == BytesLeft(offsets, n) - (if i < n then r else 0)
      && Unfinished(after, n) == Unfinished(offsets, n) - (if i < n && offsets[i] + r == PAYLOAD then 1 else 0)
  {
    if n != 0 {
      AdvanceOne(offsets, i, r, n - 1);
    }
  }

  lemma {:induction false} NoneUnfinished(offsets: seq<nat>, n: nat)
    requires n <= |offsets|
    ensures Unfinished(offsets, n) == 0 <==> forall i :: 0 <= i < n ==> offsets[i] == PAYLOAD
  {
    if n != 0 {
      NoneUnfinished(offsets, n - 1);
    }
  }

  lemma {:induction false} AllUnfinished(offsets: seq<nat>, n: nat)
    requires n <= |offsets| && forall i :: 0 <= i < n ==> offsets[i] == 0
    ensures Unfinished(offsets, n) == n
  {
    if n != 0 {
      AllUnfinished(offsets, n - 1);
    }
  }

  function Tag(sending: bool): (t: u64)
    ensures IsTag(t)
  {
    if sending then TX_TAG else RX_TAG
  }

  /** The entry for the rest of request i: its own file, its own buffer, from where it stands to the end. */
  function EntryFor(sending: bool, slots: seq<nat>, base: u32, offsets: seq<nat>, i: nat): Sqe
    requires i < |slots| == |offsets| && Offsets(offsets)
  {
    Sqe(slots[i], i, offsets[i], PAYLOAD - offsets[i], Tagged(Tag(sending), base + i))
  }

  /** The entries a pass submits, of the first n requests. */
  function Entries(sending: bool, slots: seq<nat>, base: u32, offsets: seq<nat>, n: nat): (es: seq<Sqe>)
    requires n <= |slots| == |offsets| && Offsets(offsets)
    ensures |es| == Unfinished(offsets, n)
  {
    if n == 0 then [] else
      Entries(sending, slots, base, offsets, n - 1) +
      if offsets[n - 1] == PAYLOAD then [] else [EntryFor(sending, slots, base, offsets, n - 1)]
  }

  /** A pass resubmits exactly the unfinished requests, each for the rest of its own payload. */
  lemma {:induction false} ResubmitsUnfinished(sending: bool, slots: seq<nat>, base: u32, offsets: seq<nat>, n: nat,
                                               e: Sqe)
    requires n <= |slots| == |offsets| && Offsets(offsets)
    ensures e in Entries(sending, slots, base, offsets, n) <==>
      exists i :: 0 <= i < n && offsets[i] < PAYLOAD && e == EntryFor(sending, slots, base, offsets, i)
  {
    if n != 0 {
      var m := n - 1;
      ResubmitsUnfinished(sending, slots, base, offsets, m, e);
      assert e in Entries(sending, slots, base, offsets, n) <==>
        e in Entries(sending, slots, base, offsets, m) ||
        (offsets[m] < PAYLOAD && e == EntryFor(sending, slots, base, offsets, m));
    }
  }

  /** The requests behind the entries of a pass. */
  function Requests(offsets: seq<nat>, n: nat): (rs: seq<int>)
    requires n <= |offsets|
    ensures |rs| == Unfinished(offsets, n) && Distinct(rs)
    ensures forall j :: 0 <= j < |rs| ==> 0 <= rs[j] < n && offsets[rs[j]] != PAYLOAD
  {
    if n == 0 then [] else
      Requests(offsets, n - 1) + if offsets[n - 1] == PAYLOAD then [] else [n - 1]
  }

  lemma {:induction false} EntriesAre(sending: bool, slots: seq<nat>, base: u32, offsets: seq<nat>, n: nat, j: nat)
    requires n <= |slots| == |offsets| && Offsets(offsets) && j < Unfinished(offsets, n)
    ensures Entries(sending, slots, base, offsets, n)[j] ==
      EntryFor(sending, slots, base, offsets, Requests(offsets, n)[j])
  {
    if n != 0 && j < Unfinished(offsets, n - 1) {
      EntriesAre(sending, slots, base, offsets, n - 1, j);
    }
  }

  lemma TagsDiffer(sending: bool, base: u32, i: nat, k: nat)
    requires i < QD && k < QD
    ensures Tagged(Tag(sending), base + i) == Tagged(Tag(sending), base + k) <==> i == k
  {
  }

  lemma EntriesAreSensible(sending: bool, slots: seq<nat>, base: u32, offsets: seq<nat>)
    requires |slots| == |offsets| <= QD && Offsets(offsets)
    ensures Sensible(Entries(sending, slots, base, offsets, |offsets|))
  {
    var n := |offsets|;
    var es, rs := Entries(sending, slots, base, offsets, n), Requests(offsets, n);
    forall p | 0 <= p < |es| ensures es[p] == EntryFor(sending, slots, base, offsets, rs[p]) {
      EntriesAre(sending, slots, base, offsets, n, p);
    }
    forall p, q | 0 <= p < q < |es| ensures es[p].userData != es[q].userData {
      EntriesDiffer(sending, slots, base, offsets, rs[p], rs[q]);
    }
  }

  lemma EntriesDiffer(sending: bool, slots: seq<nat>, base: u32, offsets: seq<nat>, i: nat, k: nat)
    requires i < |slots| && k < |slots| && |slots| == |offsets| <= QD && Offsets(offsets)
    ensures EntryFor(sending, slots, base, offsets, i).userData == EntryFor(sending, slots, base, offsets, k).userData
      <==> i == k
  {
    TagsDiffer(sending, base, i, k);
  }

  /** The kernel finds the entry of an unfinished request by its user data. */
  lemma FindsEntry(sending: bool, slots: seq<nat>, base: u32, offsets: seq<nat>, k: nat, userData: u64)
    requires k < |slots| == |offsets| <= QD && Offsets(offsets) && offsets[k] < PAYLOAD
    requires k == Decode(userData, Tag(sending), base, |offsets|)
    ensures var es := Entries(sending, slots, base, offsets, |offsets|);
      Find(es, userData) < |es| && es[Find(es, userData)] == EntryFor(sending, slots, base, offsets, k)
  {
    var es, e := Entries(sending, slots, base, offsets, |offsets|), EntryFor(sending, slots, base, offsets, k);
    DecodeInvertsTagging(userData, Tag(sending), base, |offsets|, k);
    ResubmitsUnfinished(sending, slots, base, offsets, |offsets|, e);
    FindsOnly(sending, slots, base, offsets, k, Find(es, e.userData));
  }

  lemma FindsOnly(sending: bool, slots: seq<nat>, base: u32, offsets: seq<nat>, k: nat, p: nat)
    requires k < |slots| == |offsets| <= QD && Offsets(offsets)
    ensures var es, e := Entries(sending, slots, base, offsets, |offsets|), EntryFor(sending, slots, base, offsets, k);
      p < |es| && es[p].userData == e.userData ==> es[p] == e
  {
    var es := Entries(sending, slots, base, offsets, |offsets|);
    if p < |es| {
      EntriesAre(sending, slots, base, offsets, |offsets|, p);
      EntriesDiffer(sending, slots, base, offsets, Requests(offsets, |offsets|)[p], k);
    }
  }

  // ---- how far a transfer has got ----

  /** Distinct slots of the table. */
  predicate Chosen(slots: seq<nat>, table: nat) {
    && (forall i :: 0 <= i < |slots| ==> slots[i] < table)
    && forall i, j :: 0 <= i < j < |slots| ==> slots[i] != slots[j]
  }

  /** How far request i has got: what was taken from its stream is at the front of its buffer, in order. */
  ghost predicate Received(incoming: (nat, nat) -> nat, slot: nat, start: nat, taken: nat, buffer: seq<nat>,
                           offset: nat)
  {
    && |buffer| == PAYLOAD && offset <= PAYLOAD
    && taken == start + offset
    && buffer[..offset] == Bytes(incoming, slot, start, offset)
  }

  ghost predicate Sent(start: seq<nat>, sent: seq<nat>, buffer: seq<nat>, offset: nat) {
    |buffer| == PAYLOAD && offset <= PAYLOAD && sent == start + buffer[..offset]
  }

  /** Every request has got as far as its offset says, and no other slot was touched. */
  ghost predicate Receiving(incoming: (nat, nat) -> nat, slots: seq<nat>, start: seq<nat>, taken: seq<nat>,
                            buffers: seq<seq<nat>>, offsets: seq<nat>)
  {
    && |offsets| == |buffers| == |slots| && |taken| == |start| && Chosen(slots, |start|)
    && (forall i :: 0 <= i < |slots| ==>
          Received(incoming, slots[i], start[slots[i]], taken[slots[i]], buffers[i], offsets[i]))
    && forall s :: 0 <= s < |start| && s !in slots ==> taken[s] == start[s]
  }

  ghost predicate Sending(slots: seq<nat>, start: seq<seq<nat>>, sent: seq<seq<nat>>,
                          buffers: seq<seq<nat>>, offsets: seq<nat>)
  {
    && |offsets| == |buffers| == |slots| && |sent| == |start| && Chosen(slots, |start|)
    && (forall i :: 0 <= i < |slots| ==> Sent(start[slots[i]], sent[slots[i]], buffers[i], offsets[i]))
    && forall s :: 0 <= s < |start| && s !in slots ==> sent[s] == start[s]
  }

  /** The world w that a transfer begun in w0 has brought about, when the requests stand at these offsets. */
  ghost predicate Standing(incoming: (nat, nat) -> nat, sending: bool, slots: seq<nat>, w0: World, w: World,
                           offsets: seq<nat>)
  {
    && |w.taken| == |w.sent| == |w0.taken| == |w0.sent| && Offsets(offsets)
    && if sending then
         w.taken == w0.taken && w.buffers == w0.buffers && Sending(slots, w0.sent, w.sent, w.buffers, offsets)
       else
         w.sent == w0.sent && Receiving(incoming, slots, w0.taken, w.taken, w.buffers, offsets)
  }

  lemma ReceiveMore(incoming: (nat, nat) -> nat, slot: nat, start: nat, taken: nat, buffer: seq<nat>, offset: nat,
                    r: nat)
    requires Received(incoming, slot, start, taken, buffer, offset) && offset + r <= PAYLOAD
    ensures Received(incoming, slot, start, taken + r,
                     buffer[..offset] + Bytes(incoming, slot, taken, r) + buffer[offset + r..], offset + r)
  {
    var after := buffer[..offset] + Bytes(incoming, slot, taken, r) + buffer[offset + r..];
    assert after[..offset + r] == Bytes(incoming, slot, start, offset) + Bytes(incoming, slot, taken, r);
    assert after[..offset + r] == Bytes(incoming, slot, start, offset + r);
  }

  lemma SendMore(start: seq<nat>, sent: seq<nat>, buffer: seq<nat>, offset: nat, r: nat)
    requires Sent(start, sent, buffer, offset) && offset + r <= PAYLOAD
    ensures Sent(start, sent + buffer[offset..offset + r], buffer, offset + r)
  {
    assert buffer[..offset + r] == buffer[..offset] + buffer[offset..offset + r];
  }

  /** Serving the entry of request i, where that request stands, takes it forward by the bytes served. */
  lemma EntryAdvances(incoming: (nat, nat) -> nat, sending: bool, slots: seq<nat>, base: u32, w0: World, w: World,
                      offsets: seq<nat>, i: nat, r: nat)
    requires Standing(incoming, sending, slots, w0, w, offsets)
    requires i < |slots| && |offsets| == |slots| && 1 <= r <= PAYLOAD - offsets[i]
    ensures var e := EntryFor(sending, slots, base, offsets, i);
      InBounds(w, e, r) &&
      Standing(incoming, sending, slots, w0, Moved(incoming, sending, w, e, r), offsets[i := offsets[i] + r])
  {
    var s := slots[i];
    if sending {
      SendMore(w0.sent[s], w.sent[s], w.buffers[i], offsets[i], r);
    } else {
      ReceiveMore(incoming, s, w0.taken[s], w.taken[s], w.buffers[i], offsets[i], r);
    }
  }

  // ---- what the program makes of the completions ----

  /** The first n completions are for different requests, each for some positive part of its rest. */
  ghost predicate Accepted(ks: seq<int>, w: seq<Cqe>, before: seq<nat>, n: nat) {
    && n <= |ks| == |w|
    && forall j :: 0 <= j < n ==>
         0 <= ks[j] < |before| && ks[j] !in ks[..j] && 1 <= w[j].res <= PAYLOAD - before[ks[j]]
  }

  /** The offsets after the first n completions. */
  ghost function After(ks: seq<int>, w: seq<Cqe>, before: seq<nat>, n: nat): (offsets: seq<nat>)
    requires Accepted(ks, w, before, n)
    ensures |offsets| == |before|
  {
    if n == 0 then before else
      var offsets := After(ks, w, before, n - 1);
      offsets[ks[n - 1] := offsets[ks[n - 1]] + w[n - 1].res]
  }

  /** A request that no completion has named has not moved. */
  lemma {:induction false} Untouched(ks: seq<int>, w: seq<Cqe>, before: seq<nat>, n: nat, i: int)
    requires Accepted(ks, w, before, n)
    requires 0 <= i < |before| && i !in ks[..n]
    ensures After(ks, w, before, n)[i] == before[i]
  {
    if n != 0 {
      assert ks[..n] == ks[..n - 1] + [ks[n - 1]];
      Untouched(ks, w, before, n - 1, i);
    }
  }

  lemma ServedOne(incoming: (nat, nat) -> nat, sending: bool, entries: seq<Sqe>, w: World, c: Cqe, e: Sqe)
    requires Find(entries, c.userData) < |entries| && entries[Find(entries, c.userData)] == e
    requires 0 < c.res <= e.len && InBounds(w, e, c.res)
    ensures ServeOne(incoming, sending, entries, w, c) == Moved(incoming, sending, w, e, c.res)
  {
  }

  /** A completion is for the entry submitted for its request, and serving that takes the request forward. */
  lemma ServedStep(incoming: (nat, nat) -> nat, sending: bool, slots: seq<nat>, base: u32, w0: World, w: World,
                   before: seq<nat>, offsets: seq<nat>, c: Cqe, k: nat, w': World, offsets': seq<nat>)
    requires k < |slots| == |before| == |offsets| <= QD && Offsets(before)
    requires k == Decode(c.userData, Tag(sending), base, |before|) && offsets[k] == before[k]
    requires 1 <= c.res <= PAYLOAD - before[k]
    requires w' == ServeOne(incoming, sending, Entries(sending, slots, base, before, |before|), w, c)
    requires offsets' == offsets[k := before[k] + c.res]
    ensures Standing(incoming, sending, slots, w0, w, offsets) ==> Standing(incoming, sending, slots, w0, w', offsets')
  {
    if Standing(incoming, sending, slots, w0, w, offsets) {
      FindsEntry(sending, slots, base, before, k, c.userData);
      var e := EntryFor(sending, slots, base, offsets, k);
      assert e == EntryFor(sending, slots, base, before, k);
      EntryAdvances(incoming, sending, slots, base, w0, w, offsets, k, c.res);
      ServedOne(incoming, sending, Entries(sending, slots, base, before, |before|), w, c, e);
    }
  }

  /** The last of the first n completions is for a request that has not moved. */
  lemma AcceptedLast(ks: seq<int>, w: seq<Cqe>, before: seq<nat>, m: nat, n: nat)
    requires n == m + 1 && Accepted(ks, w, before, n)
    ensures Accepted(ks, w, before, m)
    ensures 0 <= ks[m] < |before| && 1 <= w[m].res <= PAYLOAD - before[ks[m]]
    ensures After(ks, w, before, m)[ks[m]] == before[ks[m]]
    ensures After(ks, w, before, n) == After(ks, w, before, m)[ks[m] := before[ks[m]] + w[m].res]
  {
    Untouched(ks, w, before, m, ks[m]);
  }

  /** The kernel served the entries the program had submitted; the program accepted the completions. Then what the
      kernel moved is what the program recorded. */
  lemma {:induction false} ServedStands(incoming: (nat, nat) -> nat, sending: bool, slots: seq<nat>, base: u32,
                                        w0: World, world: World, before: seq<nat>, ks: seq<int>, cqes: seq<Cqe>,
                                        n: nat, w: World, offsets: seq<nat>)
    requires |slots| == |before| <= QD && Offsets(before)
    requires ks == Keys(cqes, Tag(sending), base, |before|) && Accepted(ks, cqes, before, n)
    requires w == ServeAll(incoming, sending, Entries(sending, slots, base, before, |before|), world, cqes, n)
    requires offsets == After(ks, cqes, before, n)
    ensures Standing(incoming, sending, slots, w0, world, before) ==>
      Standing(incoming, sending, slots, w0, w, offsets)
  {
    if n != 0 {
      var m := n - 1;
      AcceptedLast(ks, cqes, before, m, n);
      var es := Entries(sending, slots, base, before, |before|);
      var w', offsets' := ServeAll(incoming, sending, es, world, cqes, m), After(ks, cqes, before, m);
      ServedStands(incoming, sending, slots, base, w0, world, before, ks, cqes, m, w', offsets');
      ServedStep(incoming, sending, slots, base, w0, w', before, offsets', cqes[m], ks[m], w, offsets);
    }
  }

  predicate Refused(e: Cqe, seen: bool, offset: nat) {
    seen || offset >= PAYLOAD || e.flags != 0 || e.res <= 0 || e.res > PAYLOAD - offset
  }

  /** What holds between two completions of a pass. */
  ghost predicate Passing(ks: seq<int>, w: seq<Cqe>, j: nat, seen: seq<bool>, before: seq<nat>, offsets: seq<nat>,
                          left: int)
    requires Offsets(before)
  {
    && Accepted(ks, w, before, j) && offsets == After(ks, w, before, j) && Offsets(offsets)
    && |seen| == |before| && (forall i :: 0 <= i < |seen| ==> (seen[i] <==> i in ks[..j]))
    && left == Unfinished(offsets, |offsets|)
    && BytesLeft(offsets, |offsets|) + j <= BytesLeft(before, |before|)
  }

  lemma PassOne(ks: seq<int>, w: seq<Cqe>, j: nat, seen: seq<bool>, before: seq<nat>, offsets: seq<nat>, left: int,
                seen': seq<bool>, offsets': seq<nat>, left': int)
    requires Offsets(before) && Passing(ks, w, j, seen, before, offsets, left)
    requires j < |ks| && 0 <= ks[j] < |seen| && !Refused(w[j], seen[ks[j]], offsets[ks[j]])
    requires seen' == seen[ks[j] := true] && offsets' == offsets[ks[j] := offsets[ks[j]] + w[j].res]
    requires left' == if offsets'[ks[j]] == PAYLOAD then left - 1 else left
    ensures Passing(ks, w, j + 1, seen', before, offsets', left')
  {
    AdvanceOne(offsets, ks[j], w[j].res, |offsets|);
    Untouched(ks, w, before, j, ks[j]);
    assert ks[..j + 1] == ks[..j] + [ks[j]];
  }

  /** The completions of an honest kernel are for different requests, and each passes the test. */
  lemma AnswersPass(w: seq<Cqe>, sending: bool, slots: seq<nat>, base: u32, before: seq<nat>, j: nat, seen: seq<bool>,
                    offsets: seq<nat>, left: int)
    requires |slots| == |before| <= QD && Offsets(before) && j < |w|
    requires Answered(w, Entries(sending, slots, base, before, |before|))
    requires Passing(Keys(w, Tag(sending), base, |before|), w, j, seen, before, offsets, left)
    ensures var k := Keys(w, Tag(sending), base, |before|)[j];
      0 <= k < |before| && !Refused(w[j], seen[k], offsets[k])
  {
    var ks := Keys(w, Tag(sending), base, |before|);
    AnswerIsFor(w, j, sending, slots, base, before);
    KeysDiffer(w, Tag(sending), base, |before|, j);
    Unseen(ks, w, j, seen, before, offsets, left);
  }

  lemma Unseen(ks: seq<int>, w: seq<Cqe>, j: nat, seen: seq<bool>, before: seq<nat>, offsets: seq<nat>, left: int)
    requires Offsets(before) && Passing(ks, w, j, seen, before, offsets, left)
    requires j < |ks| && 0 <= ks[j] < |before| && ks[j] !in ks[..j]
    ensures !seen[ks[j]] && offsets[ks[j]] == before[ks[j]]
  {
    Untouched(ks, w, before, j, ks[j]);
  }

  lemma KeysDiffer(w: seq<Cqe>, tag: u64, base: u32, count: nat, j: nat)
    requires IsTag(tag) && count <= QD && ToldApart(w) && j < |w| && Keys(w, tag, base, count)[j] != STRAY
    ensures Keys(w, tag, base, count)[j] !in Keys(w, tag, base, count)[..j]
  {
    var ks := Keys(w, tag, base, count);
    forall i | 0 <= i < j ensures ks[i] != ks[j] {
      DecodeInvertsTagging(w[i].userData, tag, base, count, ks[j]);
      DecodeInvertsTagging(w[j].userData, tag, base, count, ks[j]);
      assert w[i].userData != w[j].userData;
    }
  }

  lemma AnswerFor(c: Cqe, sending: bool, slots: seq<nat>, base: u32, before: seq<nat>, p: nat)
    requires |slots| == |before| <= QD && Offsets(before) && p < Unfinished(before, |before|)
    requires Answers(c, Entries(sending, slots, base, before, |before|)[p])
    ensures var k := Decode(c.userData, Tag(sending), base, |before|);
      0 <= k < |before| && c.flags == 0 && 1 <= c.res <= PAYLOAD - before[k]
  {
    EntriesAre(sending, slots, base, before, |before|, p);
    DecodeInvertsTagging(c.userData, Tag(sending), base, |before|, Requests(before, |before|)[p]);
  }

  lemma AnswerIsFor(w: seq<Cqe>, j: nat, sending: bool, slots: seq<nat>, base: u32, before: seq<nat>)
    requires |slots| == |before| <= QD && Offsets(before) && j < |w|
    requires Answered(w, Entries(sending, slots, base, before, |before|))
    ensures var k, c := Decode(w[j].userData, Tag(sending), base, |before|), w[j];
      0 <= k < |before| && c.flags == 0 && 1 <= c.res <= PAYLOAD - before[k]
  {
    var c := w[j];
    var es := Entries(sending, slots, base, before, |before|);
    assert AnswersOne(c, es);
    var p :| 0 <= p < |es| && Answers(c, es[p]);
    AnswerFor(c, sending, slots, base, before, p);
  }

  // ---- fixed_io ----

  method Submit(sending: bool, slots: seq<nat>, base: u32, offsets: array<nat>) returns (entries: seq<Sqe>)
    requires |slots| == offsets.Length && Offsets(offsets[..])
    ensures entries == Entries(sending, slots, base, offsets[..], |slots|)
  {
    entries := [];
    for i := 0 to |slots|
      invariant entries == Entries(sending, slots, base, offsets[..], i)
    {
      if offsets[i] != PAYLOAD {
        entries := entries + [Sqe(slots[i], i, offsets[i], PAYLOAD - offsets[i], Tagged(Tag(sending), base + i))];
      }
    }
  }

  method Accept(c: Cqe, i: nat, offsets: array<nat>, seen: array<bool>, left: int) returns (ok: bool, rest: int)
    requires i < offsets.Length == seen.Length
    modifies offsets, seen
    ensures ok == !Refused(c, old(seen[i]), old(offsets[i]))
    ensures ok ==> seen[..] == old(seen[..])[i := true]
    ensures ok ==> var o := old(offsets[i]) + c.res;
      offsets[..] == old(offsets[..])[i := o] && rest == if o == PAYLOAD then left - 1 else left
  {
    ok, rest := false, left;
    if !seen[i] && offsets[i] < PAYLOAD && c.flags == 0 && 0 < c.res <= PAYLOAD - offsets[i] {
      seen[i] := true;
      offsets[i] := offsets[i] + c.res;
      rest := if offsets[i] == PAYLOAD then left - 1 else left;
      ok := true;
    }
  }

  method CollectOne(sending: bool, ghost slots: seq<nat>, base: u32, cqes: seq<Cqe>, j: nat, ghost before: seq<nat>,
                    offsets: array<nat>, seen: array<bool>, left: int) returns (ok: bool, rest: int)
    requires |slots| == |before| == offsets.Length == seen.Length <= QD && Offsets(before) && j < |cqes|
    requires Passing(Keys(cqes, Tag(sending), base, |before|), cqes, j, seen[..], before, offsets[..], left)
    modifies offsets, seen
    ensures Answered(cqes, Entries(sending, slots, base, before, |before|)) ==> ok
    ensures ok ==>
      Passing(Keys(cqes, Tag(sending), base, |before|), cqes, j + 1, seen[..], before, offsets[..], rest)
  {
    ghost var ks := Keys(cqes, Tag(sending), base, |before|);
    if Answered(cqes, Entries(sending, slots, base, before, |before|)) {
      AnswersPass(cqes, sending, slots, base, before, j, seen[..], offsets[..], left);
    }
    var i := Decode(cqes[j].userData, Tag(sending), base, offsets.Length);
    if i == STRAY {
      return false, left;
    }
    ghost var s, o := seen[..], offsets[..];
    ok, rest := Accept(cqes[j], i, offsets, seen, left);
    if ok {
      PassOne(ks, cqes, j, s, before, o, left, seen[..], offsets[..], rest);
    }
  }

  /** The completion loop of one pass. */
  method Collect(sending: bool, ghost slots: seq<nat>, base: u32, cqes: seq<Cqe>, offsets: array<nat>, left: int)
    returns (ok: bool, rest: int)
    requires |slots| == offsets.Length <= QD && Offsets(offsets[..]) && left == Unfinished(offsets[..], |slots|)
    modifies offsets
    ensures Answered(cqes, Entries(sending, slots, base, old(offsets[..]), |slots|)) ==> ok
    ensures ok ==> var ks := Keys(cqes, Tag(sending), base, |slots|);
      Accepted(ks, cqes, old(offsets[..]), |cqes|) && offsets[..] == After(ks, cqes, old(offsets[..]), |cqes|)
    ensures ok ==> Offsets(offsets[..]) && rest == Unfinished(offsets[..], |slots|)
    ensures ok ==> BytesLeft(offsets[..], |slots|) + |cqes| <= old(BytesLeft(offsets[..], |slots|))
  {
    var seen := new bool[offsets.Length](_ => false);
    ghost var before, ks := offsets[..], Keys(cqes, Tag(sending), base, |slots|);
    var j := 0;
    ok, rest := true, left;
    while ok && j < |cqes|
      invariant j <= |cqes|
      invariant Answered(cqes, Entries(sending, slots, base, before, |slots|)) ==> ok
      invariant ok ==> Passing(ks, cqes, j, seen[..], before, offsets[..], rest)
      decreases ok, |cqes| - j
    {
      ok, rest := CollectOne(sending, slots, base, cqes, j, before, offsets, seen, rest);
      j := j + 1;
    }
  }

  /** Every request at its end. */
  function Whole(n: nat): (offsets: seq<nat>)
    ensures |offsets| == n
  {
    seq(n, _ => PAYLOAD)
  }

  /** One pass of fixed_io: submit the rests, let the kernel serve them, take the completions. */
  method Pass(conns: Connections, sending: bool, slots: seq<nat>, base: u32, buffers: array<seq<nat>>,
              offsets: array<nat>, left: nat, pass: nat, kernel: Kernel, ghost w0: World)
    returns (ok: bool, rest: int)
    requires |slots| == offsets.Length <= QD && left == Unfinished(offsets[..], |slots|)
    requires Standing(conns.incoming, sending, slots, w0, conns.With(buffers), offsets[..])
    modifies conns, buffers, offsets
    ensures Honest(kernel) ==> ok
    ensures ok ==> Standing(conns.incoming, sending, slots, w0, conns.With(buffers), offsets[..])
    ensures ok ==> rest == Unfinished(offsets[..], |slots|)
    ensures ok ==> BytesLeft(offsets[..], |slots|) + left <= old(BytesLeft(offsets[..], |slots|))
  {
    ghost var before, world := offsets[..], conns.With(buffers);
    var entries := Submit(sending, slots, base, offsets);
    if |entries| != left {
      return false, left;
    }
    var cqes := kernel(pass, entries);
    conns.Serve(sending, entries, cqes, buffers);
    if |cqes| != |entries| {
      EntriesAreSensible(sending, slots, base, before);
      return false, left;
    }
    ok, rest := Collect(sending, slots, base, cqes, offsets, left);
    EntriesAreSensible(sending, slots, base, before);
    if ok {
      ServedStands(conns.incoming, sending, slots, base, w0, world, before,
                   Keys(cqes, Tag(sending), base, |slots|), cqes, |cqes|, conns.With(buffers), offsets[..]);
    }
  }

  /** fixed_io. It ends for every kernel; with a kernel that serves what it is asked it does not fail, however short
      the completions. When it does not fail, every request is whole. */
  method Transfer(conns: Connections, sending: bool, slots: seq<nat>, base: u32, buffers: array<seq<nat>>,
                  kernel: Kernel) returns (ok: bool)
    requires |conns.taken| == |conns.sent| && Chosen(slots, |conns.taken|) && |slots| == buffers.Length <= QD
    requires forall i :: 0 <= i < buffers.Length ==> |buffers[i]| == PAYLOAD
    modifies conns, buffers
    ensures Honest(kernel) ==> ok
    ensures ok ==>
      Standing(conns.incoming, sending, slots, old(conns.With(buffers)), conns.With(buffers), Whole(|slots|))
  {
    var offsets := new nat[|slots|](_ => 0);
    ghost var w0 := conns.With(buffers);
    var remaining, pass := |slots|, 0;
    AllUnfinished(offsets[..], |slots|);
    Begun(conns.incoming, sending, slots, w0, offsets[..]);
    ok := true;
    while remaining > 0
      invariant ok && remaining == Unfinished(offsets[..], |slots|)
      invariant Standing(conns.incoming, sending, slots, w0, conns.With(buffers), offsets[..])
      decreases BytesLeft(offsets[..], |slots|)
    {
      ok, remaining := Pass(conns, sending, slots, base, buffers, offsets, remaining, pass, kernel, w0);
      if !ok {
        return;
      }
      pass := pass + 1;
    }
    NoneUnfinished(offsets[..], |slots|);
    assert offsets[..] == Whole(|slots|);
  }

  lemma Begun(incoming: (nat, nat) -> nat, sending: bool, slots: seq<nat>, w0: World, offsets: seq<nat>)
    requires |w0.taken| == |w0.sent| && Chosen(slots, |w0.taken|) && |offsets| == |slots| == |w0.buffers|
    requires forall i :: 0 <= i < |w0.buffers| ==> |w0.buffers[i]| == PAYLOAD && offsets[i] == 0
    ensures Standing(incoming, sending, slots, w0, w0, offsets)
  {
  }

  /** After a receive every buffer holds exactly the next 64 bytes of its own stream. */
  lemma ReceivedWhole(incoming: (nat, nat) -> nat, slots: seq<nat>, w0: World, w: World, i: nat)
    requires Standing(incoming, false, slots, w0, w, Whole(|slots|)) && i < |slots|
    ensures w.buffers[i] == Bytes(incoming, slots[i], w0.taken[slots[i]], PAYLOAD)
    ensures w.taken[slots[i]] == w0.taken[slots[i]] + PAYLOAD
  {
    assert Received(incoming, slots[i], w0.taken[slots[i]], w.taken[slots[i]], w.buffers[i], Whole(|slots|)[i]);
    assert w.buffers[i][..PAYLOAD] == w.buffers[i];
  }

  /** After a send every connection has been sent exactly its own buffer. */
  lemma SentWhole(incoming: (nat, nat) -> nat, slots: seq<nat>, w0: World, w: World, i: nat)
    requires Standing(incoming, true, slots, w0, w, Whole(|slots|)) && i < |slots|
    ensures w.sent[slots[i]] == w0.sent[slots[i]] + w0.buffers[i]
  {
    assert Sent(w0.sent[slots[i]], w.sent[slots[i]], w.buffers[i], Whole(|slots|)[i]);
    assert w.buffers[i][..PAYLOAD] == w.buffers[i];
  }

  /** One request of the inner loop: what came from each connection goes back to it, and every other connection is
      left alone. */
  method Echo(conns: Connections, slots: seq<nat>, base: u32, buffers: array<seq<nat>>, receive: Kernel, send: Kernel)
    returns (ok: bool)
    requires |conns.taken| == |conns.sent| && Chosen(slots, |conns.taken|) && |slots| == buffers.Length <= QD
    requires forall i :: 0 <= i < buffers.Length ==> |buffers[i]| == PAYLOAD
    modifies conns, buffers
    ensures Honest(receive) && Honest(send) ==> ok
    ensures ok ==> |conns.sent| == |conns.taken| == old(|conns.taken|)
    ensures ok ==> forall i :: 0 <= i < |slots| ==>
      conns.sent[slots[i]] ==
        old(conns.sent)[slots[i]] + Bytes(conns.incoming, slots[i], old(conns.taken)[slots[i]], PAYLOAD)
    ensures ok ==> forall s :: 0 <= s < |conns.sent| && s !in slots ==> conns.sent[s] == old(conns.sent)[s]
  {
    ghost var w0 := conns.With(buffers);
    ok := Transfer(conns, false, slots, base, buffers, receive);
    if !ok {
      return;
    }
    ghost var w1 := conns.With(buffers);
    Sized(conns.incoming, slots, w0, w1);
    ok := Transfer(conns, true, slots, base, buffers, send);
    if ok {
      Echoed(conns.incoming, slots, w0, w1, conns.With(buffers));
    }
  }

  lemma Sized(incoming: (nat, nat) -> nat, slots: seq<nat>, w0: World, w: World)
    requires Standing(incoming, false, slots, w0, w, Whole(|slots|))
    ensures |w.taken| == |w.sent| && forall i :: 0 <= i < |w.buffers| ==> |w.buffers[i]| == PAYLOAD
  {
    assert forall i :: 0 <= i < |slots| ==>
      Received(incoming, slots[i], w0.taken[slots[i]], w.taken[slots[i]], w.buffers[i], Whole(|slots|)[i]);
  }

  lemma Echoed(incoming: (nat, nat) -> nat, slots: seq<nat>, w0: World, w1: World, w2: World)
    requires Standing(incoming, false, slots, w0, w1, Whole(|slots|))
    requires Standing(incoming, true, slots, w1, w2, Whole(|slots|))
    ensures forall i :: 0 <= i < |slots| ==>
      w2.sent[slots[i]] == w0.sent[slots[i]] + Bytes(incoming, slots[i], w0.taken[slots[i]], PAYLOAD)
    ensures forall s :: 0 <= s < |w0.sent| && s !in slots ==> w2.sent[s] == w0.sent[s]
  {
    forall i | 0 <= i < |slots|
      ensures w2.sent[slots[i]] == w0.sent[slots[i]] + Bytes(incoming, slots[i], w0.taken[slots[i]], PAYLOAD)
    {
      ReceivedWhole(incoming, slots, w0, w1, i);
      SentWhole(incoming, slots, w1, w2, i);
    }
  }
}
