/** io_uring_memmap_round.c: rings set up, mapped, unmapped and closed, with every system call free to fail. */
module RingLifecycle {
  /** One kind of resource: what is live, and what of it has had its own release called and seen it fail. */
  datatype Pool = Pool(live: set<nat>, stuck: set<nat>)

  const NOTHING: Pool := Pool({}, {})

  function Acquire(p: Pool, id: nat): Pool {
    p.(live := p.live + {id})
  }

  function Drop(p: Pool, id: nat, ok: bool): Pool {
    if ok then p.(live := p.live - {id}) else p.(stuck := p.stuck + {id})
  }

  /** Everything live is owned or stuck, and nothing is both. */
  ghost predicate Held(p: Pool, owned: set<nat>, next: nat) {
    && p.live == p.stuck + owned && p.stuck !! owned
    && forall x :: x in p.live ==> x < next
  }

  lemma AcquireHolds(p: Pool, owned: set<nat>, next: nat)
    requires Held(p, owned, next)
    ensures Held(Acquire(p, next), owned + {next}, next + 1) && next !in owned
    ensures |Acquire(p, next).live| == |p.live| + 1
  {
  }

  lemma DropHolds(p: Pool, owned: set<nat>, next: nat, id: nat, ok: bool)
    requires Held(p, owned, next) && id in owned
    ensures Held(Drop(p, id, ok), owned - {id}, next)
    ensures |Drop(p, id, ok).live| == |p.live| - if ok then 1 else 0
  {
  }

  datatype Tally = Tally(setups: nat, closes: nat, mmaps: nat, munmaps: nat, nops: nat)

  /** The mappings are accounted for: owned or stuck, and counted. */
  ghost predicate InBalance(maps: Pool, owned: set<nat>, next: nat, t: Tally) {
    Held(maps, owned, next) && t.mmaps == t.munmaps + |maps.live|
  }

  lemma AcquireBalances(maps: Pool, owned: set<nat>, next: nat, t: Tally)
    requires InBalance(maps, owned, next, t)
    ensures InBalance(Acquire(maps, next), owned + {next}, next + 1, t.(mmaps := t.mmaps + 1)) && next !in owned
  {
    AcquireHolds(maps, owned, next);
  }

  lemma AcquireKeepsBalance(maps: Pool, owned: set<nat>, next: nat, t: Tally)
    ensures InBalance(maps, owned, next, t) ==>
      InBalance(Acquire(maps, next), owned + {next}, next + 1, t.(mmaps := t.mmaps + 1)) && next !in owned
  {
    if InBalance(maps, owned, next, t) {
      AcquireBalances(maps, owned, next, t);
    }
  }

  lemma DropBalances(maps: Pool, owned: set<nat>, next: nat, t: Tally, id: nat, ok: bool)
    requires InBalance(maps, owned, next, t) && id in owned
    ensures InBalance(Drop(maps, id, ok), owned - {id}, next, t.(munmaps := t.munmaps + if ok then 1 else 0))
  {
    DropHolds(maps, owned, next, id, ok);
  }

  lemma DropKeepsBalance(maps: Pool, owned: set<nat>, next: nat, t: Tally, id: nat, ok: bool)
    ensures id in owned && InBalance(maps, owned, next, t) ==>
      InBalance(Drop(maps, id, ok), owned - {id}, next, t.(munmaps := t.munmaps + if ok then 1 else 0))
  {
    if id in owned && InBalance(maps, owned, next, t) {
      DropBalances(maps, owned, next, t, id, ok);
    }
  }

  datatype Verdict = Verdict(events: nat, successful: nat, validationFailures: nat, cleanupFailures: nat)
  datatype Health = Health(dropped: nat, overflow: nat, outstanding: nat)

  const HEALTHY: Health := Health(0, 0, 0)

  /** How a no-op request goes: it fails before its completion is seen, or it completes, rightly or wrongly. */
  datatype Nop = Lost | Wrong | Right

  datatype Addresses = Addresses(ring: bool, sqes: bool)

  /** The kernel's answers, by the number of the call; or a kernel that always does what it is meant to do. */
  datatype Script = Flawless
    | Script(fails: nat -> bool, valid: nat -> bool, nop: nat -> Nop, health: nat -> Health, kept: nat -> Addresses,
             refuses: nat -> bool)

  predicate FailsAt(s: Script, n: nat) {
    s.Script? && s.fails(n)
  }

  predicate ValidAt(s: Script, n: nat) {
    s.Script? ==> s.valid(n)
  }

  function NopAt(s: Script, n: nat): Nop {
    if s.Script? then s.nop(n) else Right
  }

  function HealthAt(s: Script, n: nat): Health {
    if s.Script? then s.health(n) else HEALTHY
  }

  function KeptAt(s: Script, n: nat): Addresses {
    if s.Script? then s.kept(n) else Addresses(true, true)
  }

  predicate RefusesAt(s: Script, n: nat) {
    s.Script? ==> s.refuses(n)
  }

  datatype Ring = Ring(fd: int, mapped: bool, userBacked: bool, shared: nat, sqes: nat)

  const RESET: Ring := Ring(-1, false, false, 0, 0)

  class RawRing {
    var r: Ring

    constructor ()
      ensures r == RESET
    {
      r := RESET;
    }
  }

  /** The mappings and the descriptor a ring owns. */
  function Mapped(r: Ring): set<nat> {
    if r.mapped && !r.userBacked then {r.shared, r.sqes} else {}
  }

  function Opened(r: Ring): set<nat> {
    if r.fd >= 0 then {r.fd} else {}
  }

  /** Every mapping is owned by the ring or stuck, and the counters differ by the live ones. */
  ghost predicate MapsFor(maps: Pool, next: nat, t: Tally, r: Ring) {
    InBalance(maps, Mapped(r), next, t) && (r.mapped && !r.userBacked ==> r.shared != r.sqes)
  }

  /** Every open descriptor is the ring's or stuck. */
  ghost predicate RingsFor(rings: Pool, next: nat, r: Ring) {
    Held(rings, Opened(r), next)
  }

  predicate Closed(r: Ring) {
    r.fd < 0 && !r.mapped
  }

  predicate SameMaps(t: Tally, u: Tally) {
    t.mmaps == u.mmaps && t.munmaps == u.munmaps
  }

  lemma UnmappedKeeps(maps: Pool, next: nat, later: nat, t: Tally, u: Tally, r: Ring, s: Ring)
    requires next <= later && SameMaps(t, u) && Mapped(r) == Mapped(s) == {} && !(s.mapped && !s.userBacked)
    ensures MapsFor(maps, next, t, r) ==> MapsFor(maps, later, u, s)
  {
  }

  lemma CountsKeep(maps: Pool, next: nat, t: Tally, u: Tally, r: Ring)
    requires SameMaps(t, u)
    ensures MapsFor(maps, next, t, r) ==> MapsFor(maps, next, u, r)
  {
  }

  lemma OpenKeeps(rings: Pool, next: nat, r: Ring, s: Ring, fd: int)
    requires r.fd < 0 && s.fd == fd && (fd >= 0 ==> fd == next)
    ensures RingsFor(rings, next, r) ==>
      if fd >= 0 then RingsFor(Acquire(rings, fd), fd + 1, s) else RingsFor(rings, next, s)
  {
    assert fd >= 0 ==> {} + {fd} == Opened(s);
  }

  lemma CloseKeeps(rings: Pool, next: nat, r: Ring, s: Ring, ok: bool)
    requires s.fd < 0
    ensures RingsFor(rings, next, r) ==> RingsFor(if r.fd >= 0 then Drop(rings, r.fd, ok) else rings, next, s)
  {
  }

  /** What opening a ring and closing one do to the descriptors. */
  predicate OpenedOne(rings: Pool, next: nat, fd: int, after: Pool, later: nat) {
    if fd >= 0 then fd == next && after == Acquire(rings, fd) && later == fd + 1 else after == rings && later == next
  }

  predicate ClosedOne(rings: Pool, fd: int, after: Pool) {
    if fd >= 0 then after == Drop(rings, fd, true) || after == Drop(rings, fd, false) else after == rings
  }

  lemma OpenedOneHolds(rings: Pool, owned: set<nat>, next: nat, r: Ring, after: Pool, later: nat)
    ensures Held(rings, owned, next) && OpenedOne(rings, next, r.fd, after, later) ==>
      Held(after, owned + Opened(r), later) && owned !! Opened(r)
  {
    if Held(rings, owned, next) && r.fd >= 0 {
      AcquireHolds(rings, owned, next);
    }
  }

  lemma ClosedOneHolds(rings: Pool, owned: set<nat>, next: nat, r: Ring, after: Pool)
    ensures Held(rings, owned + Opened(r), next) && owned !! Opened(r) && ClosedOne(rings, r.fd, after) ==>
      Held(after, owned, next)
  {
    if Held(rings, owned + Opened(r), next) && owned !! Opened(r) && r.fd >= 0 {
      DropHolds(rings, owned + Opened(r), next, r.fd, true);
      DropHolds(rings, owned + Opened(r), next, r.fd, false);
      assert owned + Opened(r) - {r.fd as nat} == owned;
    }
  }

  lemma LaterKeeps(rings: Pool, next: nat, later: nat, r: Ring, s: Ring)
    requires next <= later && r.fd == s.fd
    ensures RingsFor(rings, next, r) ==> RingsFor(rings, later, s)
  {
  }

  /** Only what could not be released is left, and the two mapping counters differ by just that. */
  predicate SettledAt(maps: Pool, rings: Pool, t: Tally) {
    maps.live == maps.stuck && rings.live == rings.stuck && t.mmaps == t.munmaps + |maps.live|
  }

  /** The process, its counters, and how far the script has been read. */
  class Process {
    const script: Script
    var calls: nat
    var next: nat
    var maps: Pool
    var rings: Pool
    var regions: Pool
    var t: Tally
    var v: Verdict
    var h: Health
    var kept: Addresses

    constructor (script: Script, kept: bool)
      ensures this.script == script && maps == rings == regions == NOTHING && calls == 0
      ensures t == Tally(0, 0, 0, 0, 0) && v == Verdict(0, 0, 0, 0) && h == HEALTHY
      ensures this.kept == Addresses(kept, kept)
    {
      this.script := script;
      calls, next, maps, rings, regions := 0, 0, NOTHING, NOTHING, NOTHING;
      t, v, h, this.kept := Tally(0, 0, 0, 0, 0), Verdict(0, 0, 0, 0), HEALTHY, Addresses(kept, kept);
    }

    /** The next set-up will open a ring whose geometry is then refused. */
    ghost predicate OpensInvalid(calls: nat) {
      !FailsAt(script, calls) && !ValidAt(script, calls + 1)
    }

    ghost predicate Balanced(owned: set<nat>)
      reads this
    {
      InBalance(maps, owned, next, t)
    }

    ghost predicate MapsHeld(r: Ring)
      reads this
    {
      MapsFor(maps, next, t, r)
    }

    ghost predicate RingsHeld(r: Ring)
      reads this
    {
      RingsFor(rings, next, r)
    }

    ghost predicate Settled()
      reads this
    {
      SettledAt(maps, rings, t)
    }

    /** mmap of a ring, counted if it succeeds. */
    method MapRing(ghost owned: set<nat>) returns (ok: bool, id: nat)
      modifies this`calls, this`next, this`maps, this`t
      ensures id == old(next) && next == (if ok then id + 1 else id)
      ensures t == old(t).(mmaps := old(t.mmaps) + if ok then 1 else 0)
      ensures old(Balanced(owned)) ==> id !in owned && Balanced(if ok then owned + {id} else owned)
      ensures script.Flawless? ==> ok
    {
      ok, id := !FailsAt(script, calls), next;
      calls := calls + 1;
      AcquireKeepsBalance(maps, owned, id, t);
      if ok {
        maps, next := Acquire(maps, id), id + 1;
        t := t.(mmaps := t.mmaps + 1);
      }
    }

    /** munmap of a ring, counted if it succeeds. */
    method UnmapRing(id: nat, ghost owned: set<nat>) returns (ok: bool)
      modifies this`calls, this`maps, this`t
      ensures t == old(t).(munmaps := old(t.munmaps) + if ok then 1 else 0)
      ensures id in owned && old(Balanced(owned)) ==> Balanced(owned - {id})
      ensures script.Flawless? ==> ok
    {
      ok := !FailsAt(script, calls);
      calls := calls + 1;
      ghost var before := maps;
      maps := Drop(maps, id, ok);
      t := t.(munmaps := t.munmaps + if ok then 1 else 0);
      DropKeepsBalance(before, owned, next, old(t), id, ok);
    }

    /** io_uring_setup, counted if it succeeds. */
    method OpenRing() returns (fd: int)
      modifies this`calls, this`next, this`rings, this`t
      ensures fd >= 0 ==> fd == old(next) && next == fd + 1 && rings == Acquire(old(rings), fd)
      ensures fd < 0 ==> next == old(next) && rings == old(rings)
      ensures t == old(t).(setups := old(t.setups) + if fd >= 0 then 1 else 0)
      ensures calls == old(calls) + 1 && (fd >= 0 <==> !FailsAt(script, old(calls)))
      ensures script.Flawless? ==> fd >= 0
    {
      fd := if FailsAt(script, calls) then -1 else next;
      calls := calls + 1;
      if fd >= 0 {
        rings, next, t := Acquire(rings, fd), fd + 1, t.(setups := t.setups + 1);
      }
    }

    /** close of a ring, counted if it succeeds. */
    method CloseFd(fd: nat) returns (ok: bool)
      modifies this`calls, this`rings, this`t
      ensures rings == Drop(old(rings), fd, ok)
      ensures t == old(t).(closes := old(t.closes) + if ok then 1 else 0)
      ensures script.Flawless? ==> ok
    {
      ok := !FailsAt(script, calls);
      calls := calls + 1;
      rings := Drop(rings, fd, ok);
      t := t.(closes := t.closes + if ok then 1 else 0);
    }

    method MapRegion() returns (ok: bool, id: nat)
      modifies this`calls, this`next, this`regions
      ensures id == old(next)
      ensures ok ==> next == id + 1 && regions == Acquire(old(regions), id)
      ensures !ok ==> next == id && regions == old(regions)
      ensures ok == !FailsAt(script, old(calls)) && calls == old(calls) + 1
    {
      ok, id := !FailsAt(script, calls), next;
      calls := calls + 1;
      if ok {
        regions, next := Acquire(regions, id), id + 1;
      }
    }

    method UnmapRegion(id: nat) returns (ok: bool)
      modifies this`calls, this`regions
      ensures regions == Drop(old(regions), id, ok)
      ensures ok == !FailsAt(script, old(calls)) && calls == old(calls) + 1
    {
      ok := !FailsAt(script, calls);
      calls := calls + 1;
      regions := Drop(regions, id, ok);
    }
  }

  /** map_standard_ring. Whatever fails, no mapping is live that is not owned or stuck. */
  method MapStandard(p: Process, ring: RawRing) returns (ok: bool)
    modifies p`calls, p`next, p`maps, p`t, p`v, ring
    ensures p.next >= old(p.next)
    ensures ok ==> p.v == old(p.v) && p.t == old(p.t).(mmaps := old(p.t.mmaps) + 2)
    ensures ring.r ==
      if ok then old(ring.r).(mapped := true, shared := old(p.next), sqes := old(p.next) + 1) else old(ring.r)
    ensures !ok ==> p.t == old(p.t).(mmaps := p.t.mmaps, munmaps := p.t.munmaps)
    ensures !ok ==> p.v == old(p.v).(cleanupFailures := p.v.cleanupFailures)
    ensures old(p.MapsHeld(ring.r)) ==> p.MapsHeld(ring.r)
    ensures p.script.Flawless? && !old(ring.r.mapped) && !old(ring.r.userBacked) ==> ok
  {
    if ring.r.mapped || ring.r.userBacked {
      return false;
    }
    var shared, sqes;
    ok, shared := p.MapRing({});
    if !ok {
      return;
    }
    ok, sqes := p.MapRing({shared});
    if !ok {
      var gone := p.UnmapRing(shared, {shared});
      if !gone {
        p.v := p.v.(cleanupFailures := p.v.cleanupFailures + 1);
      }
      return;
    }
    ring.r := ring.r.(shared := shared, sqes := sqes, mapped := true);
    assert {} + {shared} == {shared} && {shared} + {sqes} == {shared, sqes};
  }

  /** unmap_standard_ring: both mappings are tried, whatever happens to the first. */
  method UnmapStandard(p: Process, ring: RawRing) returns (ok: bool)
    modifies p`calls, p`maps, p`t, ring
    ensures ok ==> old(ring.r.mapped && !ring.r.userBacked) && p.t == old(p.t).(munmaps := old(p.t.munmaps) + 2)
    ensures ring.r ==
      if old(ring.r.mapped) && !old(ring.r.userBacked) then old(ring.r).(mapped := false) else old(ring.r)
    ensures p.t == old(p.t).(munmaps := p.t.munmaps)
    ensures old(p.MapsHeld(ring.r)) ==> p.MapsHeld(ring.r)
    ensures p.script.Flawless? && old(ring.r.mapped) && !old(ring.r.userBacked) ==> ok
  {
    var r := ring.r;
    if !r.mapped || r.userBacked {
      return false;
    }
    var first := p.UnmapRing(r.sqes, {r.shared, r.sqes});
    var second := p.UnmapRing(r.shared, {r.shared});
    ring.r := ring.r.(mapped := false);
    ok := first && second;
    if old(p.MapsHeld(ring.r)) {
      assert {r.shared, r.sqes} - {r.sqes} == {r.shared} && {r.shared} - {r.shared} == {};
    }
  }

  /** The part the two set-ups share: reset the ring, open it and check its geometry. It is all of
      setup_standard_ring when that is told not to map. */
  method OpenFresh(p: Process, ring: RawRing) returns (ok: bool)
    modifies p`calls, p`next, p`rings, p`t, ring
    ensures OpenedOne(old(p.rings), old(p.next), ring.r.fd, p.rings, p.next)
    ensures ok <==> ring.r.fd >= 0 && !p.OpensInvalid(old(p.calls))
    ensures p.OpensInvalid(old(p.calls)) ==> ring.r.fd >= 0
    ensures p.next >= old(p.next)
    ensures ring.r == RESET.(fd := ring.r.fd)
    ensures ok ==> p.t == old(p.t).(setups := old(p.t.setups) + 1)
    ensures p.t == old(p.t).(setups := p.t.setups)
    ensures Closed(old(ring.r)) && old(p.MapsHeld(ring.r)) ==> p.MapsHeld(ring.r)
    ensures Closed(old(ring.r)) && old(p.RingsHeld(ring.r)) ==> p.RingsHeld(ring.r)
    ensures p.script.Flawless? ==> ok
  {
    ghost var r0, rings0, t0, n := ring.r, p.rings, p.t, p.next;
    ring.r := RESET;
    var fd := p.OpenRing();
    ring.r := ring.r.(fd := fd);
    if Closed(r0) {
      UnmappedKeeps(p.maps, n, p.next, t0, p.t, r0, ring.r);
      OpenKeeps(rings0, n, r0, ring.r, fd);
    }
    ok := fd >= 0 && ValidAt(p.script, p.calls);
  }

  /** setup_standard_ring with its mapping. A failure after opening leaves the ring open, for the caller to close. */
  method SetupStandard(p: Process, ring: RawRing) returns (ok: bool)
    modifies p`calls, p`next, p`maps, p`rings, p`t, p`v, ring
    ensures ok ==> p.v == old(p.v) && ring.r.fd >= 0 && ring.r.mapped
    ensures ok ==> p.t == old(p.t).(setups := old(p.t.setups) + 1, mmaps := old(p.t.mmaps) + 2)
    ensures Closed(old(ring.r)) && old(p.MapsHeld(ring.r)) ==> p.MapsHeld(ring.r)
    ensures Closed(old(ring.r)) && old(p.RingsHeld(ring.r)) ==> p.RingsHeld(ring.r)
    ensures !ring.r.userBacked && (ring.r.mapped ==> ring.r.fd >= 0)
    ensures p.script.Flawless? ==> ok
  {
    ok := OpenFresh(p, ring);
    if ok {
      ghost var r, n := ring.r, p.next;
      ok := MapStandard(p, ring);
      LaterKeeps(p.rings, n, p.next, r, ring.r);
    }
  }

  /** The counters after a close in which nothing failed. */
  function AfterUnmap(t: Tally, r: Ring): Tally {
    if r.mapped && !r.userBacked then t.(munmaps := t.munmaps + 2) else t
  }

  function AfterClose(t: Tally, r: Ring): Tally {
    var u := AfterUnmap(t, r);
    if r.fd >= 0 then u.(closes := u.closes + 1) else u
  }

  method UnmapIfMapped(p: Process, ring: RawRing) returns (ok: bool)
    modifies p`calls, p`maps, p`t, ring
    ensures ring.r.fd == old(ring.r.fd) && Mapped(ring.r) == {}
    ensures ok ==> p.t == AfterUnmap(old(p.t), old(ring.r))
    ensures old(p.MapsHeld(ring.r)) ==> p.MapsHeld(ring.r)
    ensures !old(ring.r.mapped) || old(ring.r.userBacked) ==> p.maps == old(p.maps)
    ensures p.script.Flawless? ==> ok
  {
    ok := true;
    if ring.r.mapped && !ring.r.userBacked {
      ok := UnmapStandard(p, ring);
    }
  }

  method CloseIt(p: Process, ring: RawRing) returns (ok: bool)
    requires Mapped(ring.r) == {}
    modifies p`calls, p`rings, p`t, ring
    ensures Closed(ring.r)
    ensures ok ==> p.t == if old(ring.r.fd) >= 0 then old(p.t).(closes := old(p.t.closes) + 1) else old(p.t)
    ensures ClosedOne(old(p.rings), old(ring.r.fd), p.rings)
    ensures old(p.MapsHeld(ring.r)) ==> p.MapsHeld(ring.r)
    ensures old(p.RingsHeld(ring.r)) ==> p.RingsHeld(ring.r)
    ensures p.script.Flawless? ==> ok
  {
    ghost var r, rings, t := ring.r, p.rings, p.t;
    ok := true;
    if ring.r.fd >= 0 {
      ok := p.CloseFd(ring.r.fd);
    }
    ring.r := ring.r.(fd := -1, mapped := false);
    CloseKeeps(rings, p.next, r, ring.r, ok);
    UnmappedKeeps(p.maps, p.next, p.next, t, p.t, r, ring.r);
  }

  /** close_ring: the descriptor is closed whatever happens to the mappings. */
  method CloseRing(p: Process, ring: RawRing) returns (ok: bool)
    modifies p`calls, p`maps, p`rings, p`t, ring
    ensures Closed(ring.r)
    ensures ok ==> p.t == AfterClose(old(p.t), old(ring.r))
    ensures old(p.MapsHeld(ring.r)) ==> p.MapsHeld(ring.r)
    ensures old(p.RingsHeld(ring.r)) ==> p.RingsHeld(ring.r)
    ensures ClosedOne(old(p.rings), old(ring.r.fd), p.rings)
    ensures !old(ring.r.mapped) || old(ring.r.userBacked) ==> p.maps == old(p.maps)
    ensures p.script.Flawless? ==> ok
  {
    ghost var r := ring.r;
    ok := UnmapIfMapped(p, ring);
    LaterKeeps(p.rings, p.next, p.next, r, ring.r);
    var closed := CloseIt(p, ring);
    ok := ok && closed;
  }

  /** submit_nop. */
  method SubmitNop(p: Process, ring: RawRing) returns (ok: bool)
    modifies p`calls, p`t
    ensures p.t == old(p.t).(nops := p.t.nops)
    ensures ok ==> p.t.nops == old(p.t.nops) + 1
    ensures p.script.Flawless? && ring.r.mapped ==> ok
    ensures old(p.MapsHeld(ring.r)) ==> p.MapsHeld(ring.r)
  {
    if !ring.r.mapped {
      return false;
    }
    var outcome := NopAt(p.script, p.calls);
    p.calls := p.calls + 1;
    if outcome.Lost? {
      return false;
    }
    CountsKeep(p.maps, p.next, p.t, p.t.(nops := p.t.nops + 1), ring.r);
    p.t := p.t.(nops := p.t.nops + 1);
    ok := outcome.Right?;
  }

  /** copy_ring_health, and the health it found. */
  method CopyHealth(p: Process, ring: RawRing) returns (found: Health)
    modifies p`calls, p`h
    ensures ring.r.mapped ==> p.h == Health(old(p.h.dropped) + found.dropped, old(p.h.overflow) + found.overflow,
                                            old(p.h.outstanding) + found.outstanding)
    ensures !ring.r.mapped ==> found == HEALTHY && p.h == old(p.h)
    ensures p.script.Flawless? ==> found == HEALTHY
  {
    found := HEALTHY;
    if ring.r.mapped {
      found := HealthAt(p.script, p.calls);
      p.calls := p.calls + 1;
      p.h := Health(p.h.dropped + found.dropped, p.h.overflow + found.overflow, p.h.outstanding + found.outstanding);
    }
  }

  /** Nothing amiss so far. */
  predicate Spotless(v: Verdict, h: Health, successful: nat) {
    v == Verdict(v.events, successful, 0, 0) && h == HEALTHY
  }

  /** The no-op check of R0 and E0: the request, then the health counters. */
  method CheckRing(p: Process, ring: RawRing) returns (ok: bool)
    modifies p`calls, p`t, p`h
    ensures p.t == old(p.t).(nops := p.t.nops)
    ensures ok ==> p.t.nops == old(p.t.nops) + 1 && p.h == HEALTHY
    ensures p.script.Flawless? && ring.r.mapped && old(p.h) == HEALTHY ==> ok
    ensures old(p.MapsHeld(ring.r)) ==> p.MapsHeld(ring.r)
  {
    ok := SubmitNop(p, ring);
    if ok {
      var _ := CopyHealth(p, ring);
      ok := p.h == HEALTHY;
    }
  }

  lemma SettledIs(maps: Pool, rings: Pool, next: nat, t: Tally, r: Ring)
    ensures Closed(r) && MapsFor(maps, next, t, r) && RingsFor(rings, next, r) ==> SettledAt(maps, rings, t)
  {
  }

  lemma FreshIsHeld(next: nat)
    ensures MapsFor(NOTHING, next, Tally(0, 0, 0, 0, 0), RESET) && RingsFor(NOTHING, next, RESET)
  {
  }

  method MapAndUnmap(p: Process, ring: RawRing) returns (ok: bool)
    requires p.MapsHeld(ring.r)
    modifies p`calls, p`next, p`maps, p`t, p`v, ring
    ensures p.MapsHeld(ring.r) && p.next >= old(p.next)
    ensures ring.r.fd == old(ring.r.fd) && ring.r.userBacked == old(ring.r.userBacked)
    ensures ok ==> !ring.r.mapped && p.v == old(p.v)
    ensures ok ==> p.t == old(p.t).(mmaps := old(p.t.mmaps) + 2, munmaps := old(p.t.munmaps) + 2)
    ensures p.script.Flawless? && !old(ring.r.mapped) && !old(ring.r.userBacked) ==> ok
  {
    ok := MapStandard(p, ring);
    if ok {
      ok := UnmapStandard(p, ring);
    }
  }

  /** One event of R0. */
  method RemapOnce(p: Process, ring: RawRing) returns (ok: bool)
    requires !ring.r.mapped && p.MapsHeld(ring.r) && p.RingsHeld(ring.r)
    modifies p`calls, p`next, p`maps, p`t, p`v, ring
    ensures p.MapsHeld(ring.r) && p.RingsHeld(ring.r)
    ensures ring.r.fd == old(ring.r.fd) && ring.r.userBacked == old(ring.r.userBacked)
    ensures ok ==> !ring.r.mapped && p.v == old(p.v).(successful := old(p.v.successful) + 1)
    ensures ok ==> p.t == old(p.t).(mmaps := old(p.t.mmaps) + 2, munmaps := old(p.t.munmaps) + 2)
    ensures p.script.Flawless? && !old(ring.r.userBacked) ==> ok
  {
    ghost var n, r := p.next, ring.r;
    ok := MapAndUnmap(p, ring);
    if ok {
      p.v := p.v.(successful := p.v.successful + 1);
    }
    LaterKeeps(p.rings, n, p.next, r, ring.r);
  }

  /** The measured loop of R0. */
  method Remap(p: Process, ring: RawRing, events: nat) returns (ok: bool)
    requires p.v == Verdict(0, 0, 0, 0) && p.t == Tally(1, 0, 2, 2, 1)
    requires !ring.r.mapped && p.MapsHeld(ring.r) && p.RingsHeld(ring.r)
    modifies p`calls, p`next, p`maps, p`t, p`v, ring
    ensures p.MapsHeld(ring.r) && p.RingsHeld(ring.r)
    ensures ring.r.fd == old(ring.r.fd) && ring.r.userBacked == old(ring.r.userBacked)
    ensures ok ==> !ring.r.mapped && p.v == Verdict(0, events, 0, 0)
    ensures ok ==> p.t == Tally(1, 0, 2 * events + 2, 2 * events + 2, 1)
    ensures p.script.Flawless? && !old(ring.r.userBacked) ==> ok
  {
    for i := 0 to events
      invariant p.MapsHeld(ring.r) && p.RingsHeld(ring.r)
      invariant ring.r.fd == old(ring.r.fd) && ring.r.userBacked == old(ring.r.userBacked)
      invariant !ring.r.mapped && p.v == Verdict(0, i, 0, 0) && p.t == Tally(1, 0, 2 * i + 2, 2 * i + 2, 1)
    {
      ok := RemapOnce(p, ring);
      if !ok {
        return;
      }
    }
    ok := true;
  }

  /** The counters after setting a ring up, mapping it and using it once. */
  function Used(t: Tally): Tally {
    Tally(t.setups + 1, t.closes, t.mmaps + 2, t.munmaps, t.nops + 1)
  }

  /** The first use of the ring. */
  method R0First(p: Process, ring: RawRing) returns (ok: bool)
    requires Closed(ring.r) && p.MapsHeld(ring.r) && p.RingsHeld(ring.r)
    modifies p`calls, p`next, p`maps, p`rings, p`t, p`v, p`h, ring
    ensures p.MapsHeld(ring.r) && p.RingsHeld(ring.r) && !ring.r.userBacked && (ring.r.mapped ==> ring.r.fd >= 0)
    ensures ok ==> ring.r.fd >= 0 && ring.r.mapped && p.h == HEALTHY && p.v == old(p.v) && p.t == Used(old(p.t))
    ensures p.script.Flawless? && old(p.h) == HEALTHY ==> ok
  {
    ok := SetupStandard(p, ring);
    if ok {
      ok := CheckRing(p, ring);
    }
  }

  /** Its first unmapping. */
  method R0Unmap(p: Process, ring: RawRing) returns (ok: bool)
    requires ring.r.fd >= 0 && ring.r.mapped && !ring.r.userBacked && p.MapsHeld(ring.r) && p.RingsHeld(ring.r)
    modifies p`calls, p`maps, p`t, ring
    ensures p.MapsHeld(ring.r) && p.RingsHeld(ring.r) && !ring.r.userBacked && ring.r.fd >= 0 && !ring.r.mapped
    ensures ok ==> p.t == old(p.t).(munmaps := old(p.t.munmaps) + 2)
    ensures p.script.Flawless? ==> ok
  {
    ghost var r := ring.r;
    ok := UnmapStandard(p, ring);
    LaterKeeps(p.rings, p.next, p.next, r, ring.r);
  }

  /** run_r0 up to its cleanup. */
  method R0Body(p: Process, ring: RawRing, events: nat) returns (ok: bool)
    requires Closed(ring.r) && p.v == Verdict(0, 0, 0, 0) && p.t == Tally(0, 0, 0, 0, 0)
    requires p.MapsHeld(ring.r) && p.RingsHeld(ring.r)
    modifies p`calls, p`next, p`maps, p`rings, p`t, p`v, p`h, ring
    ensures p.MapsHeld(ring.r) && p.RingsHeld(ring.r) && !ring.r.userBacked && (ring.r.mapped ==> ring.r.fd >= 0)
    ensures ok ==> ring.r.fd >= 0 && ring.r.mapped && Spotless(p.v, p.h, events)
    ensures ok ==> p.t == Tally(1, 0, 2 * events + 4, 2 * events + 2, 2)
    ensures p.script.Flawless? && old(p.h) == HEALTHY ==> ok
  {
    ok := R0First(p, ring);
    if ok {
      ok := R0Unmap(p, ring);
    }
    if ok {
      ok := R0Rest(p, ring, events);
    }
  }

  method R0Rest(p: Process, ring: RawRing, events: nat) returns (ok: bool)
    requires ring.r.fd >= 0 && !ring.r.mapped && !ring.r.userBacked
    requires p.v == Verdict(0, 0, 0, 0) && p.t == Tally(1, 0, 2, 2, 1)
    requires p.MapsHeld(ring.r) && p.RingsHeld(ring.r)
    modifies p`calls, p`next, p`maps, p`t, p`v, p`h, ring
    ensures p.MapsHeld(ring.r) && p.RingsHeld(ring.r) && !ring.r.userBacked && (ring.r.mapped ==> ring.r.fd >= 0)
    ensures ok ==> ring.r.fd >= 0 && ring.r.mapped && Spotless(p.v, p.h, events)
    ensures ok ==> p.t == Tally(1, 0, 2 * events + 4, 2 * events + 2, 2)
    ensures p.script.Flawless? && old(p.h) == HEALTHY ==> ok
  {
    ok := Remap(p, ring, events);
    if ok {
      ghost var n, r := p.next, ring.r;
      ok := MapStandard(p, ring);
      LaterKeeps(p.rings, n, p.next, r, ring.r);
    }
    if ok {
      ok := CheckRing(p, ring);
    }
  }

  datatype Profile = R0 | L0 | N0 | A0 | E0

  /** counters_pass. */
  predicate CountersPass(profile: Profile, t: Tally, v: Verdict, h: Health, kept: Addresses) {
    && v.successful == v.events && v.validationFailures == 0 && v.cleanupFailures == 0 && h == HEALTHY
    && match profile
       case R0 => t.mmaps == t.munmaps && t.setups == 1 && t.closes == 1 && t.nops == 2
       case L0 => t.setups == v.events && t.closes == v.events && t.nops == v.events && t.mmaps == t.munmaps
       case N0 =>
         && t.setups == v.events && t.closes == v.events && t.nops == v.events && t.mmaps == 0 && t.munmaps == 0
         && kept.ring && kept.sqes
       case A0 => t.mmaps == v.events * 2 && t.munmaps == v.events * 2
       case E0 => true
  }

  /** What validate_memmap_tsv.py demands of the counts of a row, independently of the program. */
  predicate RowRules(profile: Profile, events: nat, t: Tally, v: Verdict, h: Health, kept: Addresses) {
    && v.events == events && v.successful == events && v.validationFailures == 0 && v.cleanupFailures == 0
    && h.dropped == 0 && h.overflow == 0 && h.outstanding == 0
    && match profile
       case R0 => t.setups == 1 && t.closes == 1 && t.nops == 2 && t.mmaps == events * 2 + 4 && t.munmaps == t.mmaps
       case L0 =>
         t.setups == events && t.closes == events && t.nops == events && t.mmaps == events * 2 && t.munmaps == t.mmaps
       case N0 =>
         && t.setups == events && t.closes == events && t.nops == events && t.mmaps == 0 && t.munmaps == 0
         && kept.ring && kept.sqes
       case A0 =>
         t.setups == 0 && t.closes == 0 && t.nops == 0 && t.mmaps == events * 2 && t.munmaps == t.mmaps
       case E0 => t.setups == 2 && t.closes == 2 && t.nops == 1
  }

  /** The cleanup of R0 and of failures in N0: the ring is closed if it was opened. */
  method CloseIfOpen(p: Process, ring: RawRing) returns (ok: bool)
    requires p.MapsHeld(ring.r) && p.RingsHeld(ring.r) && (ring.r.mapped ==> ring.r.fd >= 0)
    modifies p`calls, p`maps, p`rings, p`t, p`v, ring
    ensures p.Settled()
    ensures p.v == old(p.v).(cleanupFailures := old(p.v.cleanupFailures) + if ok then 0 else 1)
    ensures ok && old(ring.r.fd) >= 0 ==> p.t == AfterClose(old(p.t), old(ring.r))
    ensures p.script.Flawless? ==> ok
  {
    ok := true;
    if ring.r.fd >= 0 {
      ok := CloseRing(p, ring);
      if !ok {
        p.v := p.v.(cleanupFailures := p.v.cleanupFailures + 1);
      }
    }
    SettledIs(p.maps, p.rings, p.next, p.t, ring.r);
  }

  /** run_r0. Whatever fails, what survives is only what could not be released; and if it succeeds and its counters
      pass, the row meets the independent rules. */
  method RunR0(p: Process, events: nat) returns (ok: bool)
    requires p.t == Tally(0, 0, 0, 0, 0) && p.v == Verdict(0, 0, 0, 0) && p.maps == p.rings == NOTHING
    modifies p
    ensures p.Settled() && p.regions == old(p.regions)
    ensures CountersPass(R0, p.t, p.v, p.h, p.kept) <==> ok && p.v.cleanupFailures == 0
    ensures ok && CountersPass(R0, p.t, p.v, p.h, p.kept) ==> RowRules(R0, events, p.t, p.v, p.h, p.kept)
    ensures p.script.Flawless? && old(p.h) == HEALTHY ==> ok && CountersPass(R0, p.t, p.v, p.h, p.kept)
  {
    var ring := new RawRing();
    FreshIsHeld(p.next);
    ok := R0Body(p, ring, events);
    p.v := p.v.(events := events);
    var _ := CloseIfOpen(p, ring);
    if !ok {
      p.v := p.v.(validationFailures := p.v.validationFailures + 1);
    }
  }

  /** What one good event of L0 adds. */
  function Cycled(t: Tally): Tally {
    Tally(t.setups + 1, t.closes + 1, t.mmaps + 2, t.munmaps + 2, t.nops + 1)
  }

  lemma CycledIs(t: Tally, r: Ring)
    requires r.fd >= 0 && r.mapped && !r.userBacked
    ensures AfterClose(Used(t), r) == Cycled(t)
  {
  }

  /** The no-op request of L0 and N0, then the health of this ring alone. */
  method UseRing(p: Process, ring: RawRing) returns (ok: bool)
    modifies p`calls, p`t, p`h
    ensures ok ==> p.h == old(p.h) && p.t == old(p.t).(nops := old(p.t.nops) + 1)
    ensures old(p.MapsHeld(ring.r)) ==> p.MapsHeld(ring.r)
    ensures p.script.Flawless? && ring.r.mapped ==> ok
  {
    ok := SubmitNop(p, ring);
    if ok {
      var found := CopyHealth(p, ring);
      ok := found == HEALTHY;
    }
  }

  /** One event of L0 up to the close of its ring. */
  method L0Use(p: Process, ring: RawRing) returns (ok: bool)
    requires Closed(ring.r) && p.MapsHeld(ring.r) && p.RingsHeld(ring.r)
    modifies p`calls, p`next, p`maps, p`rings, p`t, p`v, p`h, ring
    ensures p.MapsHeld(ring.r) && p.RingsHeld(ring.r) && !ring.r.userBacked
    ensures ok ==> ring.r.fd >= 0 && ring.r.mapped && p.v == old(p.v) && p.h == old(p.h)
    ensures ok ==> p.t == Used(old(p.t))
    ensures p.script.Flawless? ==> ok
  {
    ok := SetupStandard(p, ring);
    if ok {
      ok := UseRing(p, ring);
    }
  }

  /** A failed event closes its ring too. */
  method Abandon(p: Process, ring: RawRing)
    requires p.MapsHeld(ring.r) && p.RingsHeld(ring.r)
    modifies p`calls, p`maps, p`rings, p`t, p`v, ring
    ensures Closed(ring.r) && p.MapsHeld(ring.r) && p.RingsHeld(ring.r)
  {
    var closed := CloseRing(p, ring);
    if !closed {
      p.v := p.v.(cleanupFailures := p.v.cleanupFailures + 1);
    }
  }

  /** A good event closes its ring and counts, if the close succeeds. */
  method Complete(p: Process, ring: RawRing) returns (ok: bool)
    requires p.MapsHeld(ring.r) && p.RingsHeld(ring.r) && ring.r.fd >= 0
    modifies p`calls, p`maps, p`rings, p`t, p`v, ring
    ensures Closed(ring.r) && p.MapsHeld(ring.r) && p.RingsHeld(ring.r)
    ensures ok ==> p.v == old(p.v).(successful := old(p.v.successful) + 1)
    ensures ok ==> p.t == AfterClose(old(p.t), old(ring.r))
    ensures p.script.Flawless? ==> ok
  {
    ok := CloseRing(p, ring);
    if ok {
      p.v := p.v.(successful := p.v.successful + 1);
    }
  }

  method L0Finish(p: Process, ring: RawRing, ghost t: Tally) returns (ok: bool)
    requires p.MapsHeld(ring.r) && p.RingsHeld(ring.r)
    requires ring.r.fd >= 0 && ring.r.mapped && !ring.r.userBacked && p.t == Used(t)
    modifies p`calls, p`maps, p`rings, p`t, p`v, ring
    ensures Closed(ring.r) && p.MapsHeld(ring.r) && p.RingsHeld(ring.r)
    ensures ok ==> p.t == Cycled(t) && p.v == old(p.v).(successful := old(p.v.successful) + 1)
    ensures p.script.Flawless? ==> ok
  {
    CycledIs(t, ring.r);
    ok := Complete(p, ring);
  }

  /** One event of L0. */
  method L0Event(p: Process, ring: RawRing) returns (ok: bool)
    requires Closed(ring.r) && p.MapsHeld(ring.r) && p.RingsHeld(ring.r)
    modifies p`calls, p`next, p`maps, p`rings, p`t, p`v, p`h, ring
    ensures Closed(ring.r) && p.MapsHeld(ring.r) && p.RingsHeld(ring.r)
    ensures ok ==> p.t == Cycled(old(p.t)) && p.h == old(p.h) && p.v == old(p.v).(successful := old(p.v.successful) + 1)
    ensures p.script.Flawless? ==> ok
  {
    ok := L0Use(p, ring);
    if ok {
      ok := L0Finish(p, ring, old(p.t));
    } else {
      Abandon(p, ring);
    }
  }

  /** run_l0, with the same guarantee as run_r0. */
  method RunL0(p: Process, events: nat) returns (ok: bool)
    requires p.t == Tally(0, 0, 0, 0, 0) && p.v == Verdict(0, 0, 0, 0) && p.h == HEALTHY && p.maps == p.rings == NOTHING
    modifies p
    ensures p.Settled() && p.regions == old(p.regions)
    ensures CountersPass(L0, p.t, p.v, p.h, p.kept) <==> ok
    ensures ok && CountersPass(L0, p.t, p.v, p.h, p.kept) ==> RowRules(L0, events, p.t, p.v, p.h, p.kept)
    ensures p.script.Flawless? ==> ok && CountersPass(L0, p.t, p.v, p.h, p.kept)
  {
    var ring := new RawRing();
    FreshIsHeld(p.next);
    ghost var regions := p.regions;
    ok := true;
    for i := 0 to events
      invariant ok && Closed(ring.r) && p.MapsHeld(ring.r) && p.RingsHeld(ring.r) && p.regions == regions
      invariant p.t == Tally(i, i, 2 * i, 2 * i, i) && p.v == Verdict(0, i, 0, 0) && p.h == HEALTHY
    {
      ok := L0Event(p, ring);
      if !ok {
        p.v := p.v.(events := events, validationFailures := p.v.validationFailures + 1);
        SettledIs(p.maps, p.rings, p.next, p.t, ring.r);
        return;
      }
    }
    p.v := p.v.(events := events);
    SettledIs(p.maps, p.rings, p.next, p.t, ring.r);
  }

  /** setup_user_ring: the ring lives in memory the caller gives it, so nothing is mapped. */
  method SetupUser(p: Process, ring: RawRing) returns (ok: bool)
    modifies p`calls, p`next, p`rings, p`t, p`kept, ring
    ensures p.next >= old(p.next)
    ensures ok ==> p.t == old(p.t).(setups := old(p.t.setups) + 1) && ring.r.fd >= 0
    ensures p.t == old(p.t).(setups := p.t.setups)
    ensures OpenedOne(old(p.rings), old(p.next), ring.r.fd, p.rings, p.next)
    ensures ring.r.mapped == ring.r.userBacked == ok
    ensures Closed(old(ring.r)) && old(p.MapsHeld(ring.r)) ==> p.MapsHeld(ring.r)
    ensures Closed(old(ring.r)) && old(p.RingsHeld(ring.r)) ==> p.RingsHeld(ring.r)
    ensures p.script.Flawless? ==> ok
    ensures p.script.Flawless? ==> p.kept == Addresses(true, true)
  {
    ok := OpenFresh(p, ring);
    if ok {
      ghost var r := ring.r;
      ring.r := ring.r.(userBacked := true, mapped := true);
      UnmappedKeeps(p.maps, p.next, p.next, p.t, p.t, r, ring.r);
      LaterKeeps(p.rings, p.next, p.next, r, ring.r);
      p.kept := KeptAt(p.script, p.calls);
    }
  }

  function UserUsed(t: Tally): Tally {
    Tally(t.setups + 1, t.closes, t.mmaps, t.munmaps, t.nops + 1)
  }

  /** What one good event of N0 adds. */
  function UserCycled(t: Tally): Tally {
    Tally(t.setups + 1, t.closes + 1, t.mmaps, t.munmaps, t.nops + 1)
  }

  lemma UserCycledIs(t: Tally, r: Ring)
    requires r.fd >= 0 && r.mapped == r.userBacked
    ensures AfterClose(UserUsed(t), r) == UserCycled(t)
  {
  }

  method N0Use(p: Process, ring: RawRing) returns (ok: bool)
    requires Closed(ring.r) && p.MapsHeld(ring.r) && p.RingsHeld(ring.r)
    modifies p`calls, p`next, p`rings, p`t, p`h, p`kept, ring
    ensures p.next >= old(p.next)
    ensures p.MapsHeld(ring.r) && p.RingsHeld(ring.r) && ring.r.mapped == ring.r.userBacked
    ensures ring.r.mapped ==> ring.r.fd >= 0
    ensures ok ==> ring.r.fd >= 0 && p.h == old(p.h) && p.kept == Addresses(true, true)
    ensures ok ==> p.t == UserUsed(old(p.t))
    ensures p.script.Flawless? ==> ok
  {
    ok := SetupUser(p, ring);
    if ok {
      ok := p.kept.ring && p.kept.sqes;
    }
    if ok {
      ok := UseRing(p, ring);
    }
  }

  method N0Finish(p: Process, ring: RawRing, ghost t: Tally) returns (ok: bool)
    requires p.MapsHeld(ring.r) && p.RingsHeld(ring.r)
    requires ring.r.fd >= 0 && ring.r.mapped == ring.r.userBacked && p.t == UserUsed(t)
    modifies p`calls, p`maps, p`rings, p`t, p`v, ring
    ensures Closed(ring.r) && p.MapsHeld(ring.r) && p.RingsHeld(ring.r)
    ensures ok ==> p.t == UserCycled(t) && p.v == old(p.v).(successful := old(p.v.successful) + 1)
    ensures p.script.Flawless? ==> ok
  {
    UserCycledIs(t, ring.r);
    ok := Complete(p, ring);
  }

  method N0Event(p: Process, ring: RawRing) returns (ok: bool)
    requires Closed(ring.r) && p.MapsHeld(ring.r) && p.RingsHeld(ring.r)
    modifies p`calls, p`next, p`maps, p`rings, p`t, p`v, p`h, p`kept, ring
    ensures p.next >= old(p.next)
    ensures Closed(ring.r) && p.MapsHeld(ring.r) && p.RingsHeld(ring.r)
    ensures ok ==> p.t == UserCycled(old(p.t))
    ensures ok ==> p.h == old(p.h) && p.kept == Addresses(true, true)
    ensures ok ==> p.v == old(p.v).(successful := old(p.v.successful) + 1)
    ensures p.script.Flawless? ==> ok
  {
    ok := N0Use(p, ring);
    if ok {
      ok := N0Finish(p, ring, old(p.t));
    } else if ring.r.fd >= 0 {
      Abandon(p, ring);
    }
  }

  /** An anonymous region is unmapped at the end of N0, if it was ever mapped. */
  method DropRegion(p: Process, mapped: bool, id: nat, ghost owned: set<nat>)
    requires Held(p.regions, owned, p.next) && (mapped ==> id in owned)
    modifies p`calls, p`regions, p`v
    ensures Held(p.regions, if mapped then owned - {id} else owned, p.next)
    ensures p.v == old(p.v).(cleanupFailures := p.v.cleanupFailures) && p.v.cleanupFailures >= old(p.v.cleanupFailures)
    ensures p.script.Flawless? ==> p.v == old(p.v)
  {
    if mapped {
      ghost var regions := p.regions;
      var ok := p.UnmapRegion(id);
      DropHolds(regions, owned, p.next, id, ok);
      if !ok {
        p.v := p.v.(cleanupFailures := p.v.cleanupFailures + 1);
      }
    }
  }

  /** The event loop of N0. */
  method N0Loop(p: Process, events: nat) returns (ok: bool)
    requires p.t == Tally(0, 0, 0, 0, 0) && p.v == Verdict(0, 0, 0, 0) && p.h == HEALTHY && p.maps == p.rings == NOTHING
    modifies p`calls, p`next, p`maps, p`rings, p`t, p`v, p`h, p`kept
    ensures p.Settled() && p.next >= old(p.next)
    ensures !ok ==> p.v.validationFailures > 0
    ensures ok ==> p.t == Tally(events, events, 0, 0, events) && p.v == Verdict(0, events, 0, 0)
    ensures ok && events > 0 ==> p.kept == Addresses(true, true)
    ensures ok ==> p.h == HEALTHY && (events == 0 ==> p.kept == old(p.kept))
    ensures p.script.Flawless? ==> ok
  {
    var ring := new RawRing();
    FreshIsHeld(p.next);
    ghost var n, kept := p.next, p.kept;
    ok := true;
    for i := 0 to events
      invariant ok && Closed(ring.r) && p.MapsHeld(ring.r) && p.RingsHeld(ring.r) && p.next >= n
      invariant p.t == Tally(i, i, 0, 0, i) && p.v == Verdict(0, i, 0, 0) && p.h == HEALTHY
      invariant p.kept == if i > 0 then Addresses(true, true) else kept
    {
      ok := N0Event(p, ring);
      if !ok {
        p.v := p.v.(validationFailures := p.v.validationFailures + 1);
        SettledIs(p.maps, p.rings, p.next, p.t, ring.r);
        return;
      }
    }
    SettledIs(p.maps, p.rings, p.next, p.t, ring.r);
  }

  /** The two regions N0 gives its rings. */
  method MapRegions(p: Process) returns (haveRing: bool, user: nat, haveSqes: bool, sqes: nat, ghost owned: set<nat>)
    requires p.regions == NOTHING
    modifies p`calls, p`next, p`regions
    ensures Held(p.regions, owned, p.next)
    ensures owned == (if haveRing then {user} else {}) + (if haveSqes then {sqes} else {})
    ensures haveSqes ==> haveRing && user != sqes
    ensures p.script.Flawless? ==> haveSqes
  {
    owned, haveSqes, sqes := {}, false, 0;
    ghost var n := p.next;
    AcquireHolds(NOTHING, {}, n);
    haveRing, user := p.MapRegion();
    if haveRing {
      owned := {} + {user};
      AcquireHolds(p.regions, owned, p.next);
      haveSqes, sqes := p.MapRegion();
      owned := if haveSqes then owned + {sqes} else owned;
    }
  }

  method DropRegions(p: Process, haveRing: bool, user: nat, haveSqes: bool, sqes: nat, ghost owned: set<nat>)
    requires Held(p.regions, owned, p.next)
    requires owned == (if haveRing then {user} else {}) + (if haveSqes then {sqes} else {})
    requires haveSqes ==> haveRing && user != sqes
    modifies p`calls, p`regions, p`v
    ensures p.regions.live == p.regions.stuck
    ensures p.v == old(p.v).(cleanupFailures := p.v.cleanupFailures) && p.v.cleanupFailures >= old(p.v.cleanupFailures)
    ensures p.script.Flawless? ==> p.v == old(p.v)
  {
    DropRegion(p, haveRing, user, owned);
    ghost var rest := if haveRing then owned - {user} else owned;
    DropRegion(p, haveSqes, sqes, rest);
    assert (if haveSqes then rest - {sqes} else rest) == {};
  }

  /** run_n0. The user's two regions, too, survive only if their own munmap failed. */
  method RunN0(p: Process, events: nat) returns (ok: bool)
    requires p.t == Tally(0, 0, 0, 0, 0) && p.v == Verdict(0, 0, 0, 0) && p.h == HEALTHY && p.maps == p.rings == NOTHING
    requires p.regions == NOTHING && p.kept == Addresses(false, false)
    modifies p
    ensures p.Settled() && p.regions.live == p.regions.stuck
    ensures CountersPass(N0, p.t, p.v, p.h, p.kept) <==> ok && p.v.cleanupFailures == 0 && events > 0
    ensures ok && CountersPass(N0, p.t, p.v, p.h, p.kept) ==> RowRules(N0, events, p.t, p.v, p.h, p.kept)
    ensures p.script.Flawless? && events > 0 ==> ok && CountersPass(N0, p.t, p.v, p.h, p.kept)
  {
    var haveRing, user, haveSqes, sqes;
    ghost var owned;
    haveRing, user, haveSqes, sqes, owned := MapRegions(p);
    ok := false;
    if haveSqes {
      ghost var n := p.next;
      ok := N0Loop(p, events);
      HeldLater(p.regions, owned, n, p.next);
    }
    p.v := p.v.(events := events);
    DropRegions(p, haveRing, user, haveSqes, sqes, owned);
  }

  lemma HeldLater(p: Pool, owned: set<nat>, next: nat, later: nat)
    requires Held(p, owned, next) && next <= later
    ensures Held(p, owned, later)
  {
  }

  /** No call in the range fails. */
  ghost predicate Clean(s: Script, from: nat, to: nat) {
    forall n :: from <= n < to ==> !FailsAt(s, n)
  }

  /** An event makes four calls: two mmaps and two munmaps. It is whole if none fails; it is cut if the first munmap
      is the first to fail, for then the second is skipped. */
  predicate Whole(s: Script, c: nat) {
    !FailsAt(s, c) && !FailsAt(s, c + 1) && !FailsAt(s, c + 2) && !FailsAt(s, c + 3)
  }

  predicate Cut(s: Script, c: nat) {
    !FailsAt(s, c) && !FailsAt(s, c + 1) && FailsAt(s, c + 2)
  }

  /** What run_a0 leaks on: everything goes well until event i, which is cut. */
  ghost predicate CutAt(s: Script, start: nat, i: nat) {
    Clean(s, start, start + 4 * i) && Cut(s, start + 4 * i)
  }

  /** The regions after an event: one was left behind, or everything left has been tried. */
  ghost predicate AfterEvent(regions: Pool, next: nat, cut: bool) {
    if cut then regions.live != regions.stuck else Held(regions, {}, next)
  }

  lemma DropPair(regions: Pool, next: nat, ring: nat, sqes: nat, first: bool, second: bool)
    requires Held(regions, {ring} + {sqes}, next) && ring != sqes
    ensures !first ==> AfterEvent(Drop(regions, sqes, first), next, true)
    ensures first ==> AfterEvent(Drop(Drop(regions, sqes, first), ring, second), next, false)
  {
    DropHolds(regions, {ring} + {sqes}, next, sqes, first);
    var rest := Drop(regions, sqes, first);
    assert {ring} + {sqes} - {sqes} == {ring};
    assert ring in rest.live && ring !in rest.stuck;
    DropLast(rest, next, ring, second);
  }

  lemma DropLast(regions: Pool, next: nat, ring: nat, ok: bool)
    requires Held(regions, {ring}, next)
    ensures AfterEvent(Drop(regions, ring, ok), next, false)
  {
    DropHolds(regions, {ring}, next, ring, ok);
    assert {ring} - {ring} == {};
  }

  /** The two munmaps of an event; the second is not tried when the first fails. */
  method A0Unmap(p: Process, ring: nat, sqes: nat) returns (ok: bool)
    requires Held(p.regions, {ring} + {sqes}, p.next) && ring != sqes
    modifies p`calls, p`regions, p`t
    ensures AfterEvent(p.regions, p.next, FailsAt(p.script, old(p.calls)))
    ensures ok <==> !FailsAt(p.script, old(p.calls)) && !FailsAt(p.script, old(p.calls) + 1)
    ensures ok ==> p.calls == old(p.calls) + 2
    ensures p.t == if ok then old(p.t).(munmaps := old(p.t.munmaps) + 2) else old(p.t)
  {
    ghost var regions := p.regions;
    ok := p.UnmapRegion(sqes);
    if !ok {
      DropPair(regions, p.next, ring, sqes, false, false);
      return;
    }
    ok := p.UnmapRegion(ring);
    DropPair(regions, p.next, ring, sqes, true, ok);
    if ok {
      p.t := p.t.(munmaps := p.t.munmaps + 2);
    }
  }

  method A0Rest(p: Process, ring: nat) returns (ok: bool)
    requires Held(p.regions, {ring}, p.next)
    modifies p`calls, p`next, p`regions, p`t
    ensures AfterEvent(p.regions, p.next, !FailsAt(p.script, old(p.calls)) && FailsAt(p.script, old(p.calls) + 1))
    ensures ok <==> !FailsAt(p.script, old(p.calls)) && !FailsAt(p.script, old(p.calls) + 1) &&
                    !FailsAt(p.script, old(p.calls) + 2)
    ensures ok ==> p.calls == old(p.calls) + 3
    ensures ok ==> p.t == old(p.t).(mmaps := old(p.t.mmaps) + 1, munmaps := old(p.t.munmaps) + 2)
  {
    var sqes;
    AcquireHolds(p.regions, {ring}, p.next);
    ok, sqes := p.MapRegion();
    if !ok {
      A0GiveUp(p, ring);
      return;
    }
    p.t := p.t.(mmaps := p.t.mmaps + 1);
    ok := A0Unmap(p, ring, sqes);
  }

  /** The second mmap failed, so the first is undone. */
  method A0GiveUp(p: Process, ring: nat)
    requires Held(p.regions, {ring}, p.next)
    modifies p`calls, p`regions
    ensures AfterEvent(p.regions, p.next, false)
  {
    ghost var regions := p.regions;
    var gone := p.UnmapRegion(ring);
    DropLast(regions, p.next, ring, gone);
  }

  lemma FirstHolds(regions: Pool, next: nat)
    requires Held(regions, {}, next)
    ensures Held(Acquire(regions, next), {next}, next + 1)
  {
    AcquireHolds(regions, {}, next);
    assert {} + {next} == {next};
  }

  /** One event of A0, on anonymous memory. */
  method A0Event(p: Process) returns (ok: bool)
    requires Held(p.regions, {}, p.next)
    modifies p`calls, p`next, p`regions, p`t, p`v
    ensures AfterEvent(p.regions, p.next, Cut(p.script, old(p.calls)))
    ensures ok <==> Whole(p.script, old(p.calls))
    ensures ok ==> p.calls == old(p.calls) + 4
    ensures ok ==> p.t == old(p.t).(mmaps := old(p.t.mmaps) + 2, munmaps := old(p.t.munmaps) + 2)
    ensures ok ==> p.v == old(p.v).(successful := old(p.v.successful) + 1)
  {
    var ring;
    FirstHolds(p.regions, p.next);
    ok, ring := p.MapRegion();
    if !ok {
      return;
    }
    p.t := p.t.(mmaps := p.t.mmaps + 1);
    ok := A0Rest(p, ring);
    if ok {
      p.v := p.v.(successful := p.v.successful + 1);
    }
  }

  /** run_a0. It meets the rules, but not the guarantee of the others: a region survives a munmap that was never
      tried if and only if the first munmap of some event is the first call to fail. */
  method RunA0(p: Process, events: nat) returns (ok: bool)
    requires p.t == Tally(0, 0, 0, 0, 0) && p.v == Verdict(0, 0, 0, 0) && p.h == HEALTHY && p.regions == NOTHING
    modifies p`calls, p`next, p`regions, p`t, p`v
    ensures p.regions.live == p.regions.stuck <==>
      forall i :: 0 <= i < events ==> !CutAt(p.script, old(p.calls), i)
    ensures ok <==> Clean(p.script, old(p.calls), old(p.calls) + 4 * events)
    ensures CountersPass(A0, p.t, p.v, p.h, p.kept) <==> ok
    ensures ok && CountersPass(A0, p.t, p.v, p.h, p.kept) ==> RowRules(A0, events, p.t, p.v, p.h, p.kept)
    ensures p.script.Flawless? ==> ok && CountersPass(A0, p.t, p.v, p.h, p.kept)
  {
    ghost var start := p.calls;
    ok := true;
    for i := 0 to events
      invariant ok && Held(p.regions, {}, p.next)
      invariant p.calls == start + 4 * i && Clean(p.script, start, p.calls)
      invariant p.t == Tally(0, 0, 2 * i, 2 * i, 0) && p.v == Verdict(0, i, 0, 0)
    {
      ok := A0Event(p);
      WholeExtends(p.script, start, start + 4 * i);
      if !ok {
        Stops(p.script, start, i, events);
        p.v := p.v.(events := events, validationFailures := p.v.validationFailures + 1);
        return;
      }
    }
    p.v := p.v.(events := events);
    NeverCut(p.script, start, events);
  }

  lemma WholeExtends(s: Script, start: nat, c: nat)
    requires start <= c && Clean(s, start, c)
    ensures Whole(s, c) <==> Clean(s, start, c + 4)
  {
    if Clean(s, start, c + 4) {
      assert !FailsAt(s, c) && !FailsAt(s, c + 1) && !FailsAt(s, c + 2) && !FailsAt(s, c + 3);
    }
  }

  lemma OnlyThere(s: Script, start: nat, i: nat, j: nat)
    requires Clean(s, start, start + 4 * i) && !Whole(s, start + 4 * i)
    ensures CutAt(s, start, j) ==> j == i
  {
    assert j < i ==> !FailsAt(s, start + 4 * j + 2);
    WholeExtends(s, start, start + 4 * i);
    assert i < j ==> start + 4 * i + 4 <= start + 4 * j;
  }

  /** After i good events, one that is not whole decides. */
  lemma Stops(s: Script, start: nat, i: nat, events: nat)
    requires i < events && Clean(s, start, start + 4 * i) && !Whole(s, start + 4 * i)
    ensures !Clean(s, start, start + 4 * events)
    ensures Cut(s, start + 4 * i) <==> exists j :: 0 <= j < events && CutAt(s, start, j)
  {
    WholeExtends(s, start, start + 4 * i);
    forall j | 0 <= j < events ensures CutAt(s, start, j) ==> j == i {
      OnlyThere(s, start, i, j);
    }
    if Cut(s, start + 4 * i) {
      assert CutAt(s, start, i);
    }
  }

  lemma NeverCut(s: Script, start: nat, events: nat)
    requires Clean(s, start, start + 4 * events)
    ensures forall i :: 0 <= i < events ==> !CutAt(s, start, i)
  {
    forall i | 0 <= i < events ensures !CutAt(s, start, i) {
      assert !FailsAt(s, start + 4 * i + 2);
    }
  }

  /** It happens: when the third call of a run fails, the region of the first mmap is left, and nothing was tried on
      it. */
  method LeakOfA0(events: nat) returns (left: set<nat>, tried: set<nat>)
    requires events > 0
    ensures left != tried
  {
    var s := Script(n => n == 2, _ => true, _ => Right, _ => HEALTHY, _ => Addresses(true, true), _ => true);
    var p := new Process(s, true);
    ghost var start := p.calls;
    var ok := RunA0(p, events);
    assert CutAt(s, start, 0);
    left, tried := p.regions.live, p.regions.stuck;
  }

  /** What came and went at once is gone, or was tried. */
  lemma TransientHolds(regions: Pool, owned: set<nat>, next: nat, ok: bool)
    ensures Held(regions, owned, next) ==> Held(Drop(Acquire(regions, next), next, ok), owned, next + 1)
  {
    if Held(regions, owned, next) {
      AcquireHolds(regions, owned, next);
      DropHolds(Acquire(regions, next), owned + {next}, next + 1, next, ok);
      assert owned + {next} - {next} == owned;
    }
  }

  /** A mapping that must be refused with one of the expected errors; if it is granted it is unmapped again, and
      nobody asks how that went. */
  method Refused(p: Process, ghost owned: set<nat>) returns (ok: bool)
    modifies p`calls, p`next, p`regions
    ensures old(Held(p.regions, owned, p.next)) ==> Held(p.regions, owned, p.next)
    ensures p.next >= old(p.next)
    ensures p.script.Flawless? ==> ok
  {
    ok := RefusesAt(p.script, p.calls);
    if ok {
      p.calls := p.calls + 1;
      return;
    }
    ghost var regions, n := p.regions, p.next;
    var granted, id := p.MapRegion();
    if granted {
      var gone := p.UnmapRegion(id);
      TransientHolds(regions, owned, n, gone);
    }
  }

  lemma SecondHolds(regions: Pool, ring: nat, next: nat, ok: bool)
    requires Held(regions, {ring}, next)
    ensures Held(Acquire(regions, next), {ring} + {next}, next + 1) && ring != next
    ensures Held(Drop(regions, ring, ok), {}, next)
  {
    AcquireHolds(regions, {ring}, next);
    DropLast(regions, next, ring, ok);
  }

  /** allocate_user_regions: both regions or neither. */
  method AllocateRegions(p: Process) returns (ok: bool, ring: nat, sqes: nat)
    requires Held(p.regions, {}, p.next)
    modifies p`calls, p`next, p`regions
    ensures ok ==> Held(p.regions, {ring} + {sqes}, p.next) && ring != sqes
    ensures !ok ==> Held(p.regions, {}, p.next)
    ensures p.next >= old(p.next)
    ensures p.script.Flawless? ==> ok
  {
    FirstHolds(p.regions, p.next);
    ok, ring := p.MapRegion();
    if !ok {
      return false, ring, ring;
    }
    ok, sqes := AllocateSecond(p, ring);
  }

  method AllocateSecond(p: Process, ring: nat) returns (ok: bool, sqes: nat)
    requires Held(p.regions, {ring}, p.next)
    modifies p`calls, p`next, p`regions
    ensures ok ==> Held(p.regions, {ring} + {sqes}, p.next) && ring != sqes
    ensures !ok ==> Held(p.regions, {}, p.next)
    ensures p.next >= old(p.next)
    ensures p.script.Flawless? ==> ok
  {
    ghost var regions, n := p.regions, p.next;
    ok, sqes := p.MapRegion();
    SecondHolds(regions, ring, n, false);
    if !ok {
      var gone := p.UnmapRegion(ring);
      SecondHolds(regions, ring, n, gone);
    }
  }

  /** The user ring of E0, once it has its regions. */
  method E0Use(p: Process, user: RawRing, ghost owned: set<nat>, ghost regions: set<nat>) returns (ok: bool)
    requires user.r == RESET && Held(p.rings, owned, p.next) && Held(p.regions, regions, p.next)
    modifies p`calls, p`next, p`rings, p`regions, p`t, p`h, p`kept, user
    ensures Held(p.rings, owned + Opened(user.r), p.next) && owned !! Opened(user.r)
    ensures Held(p.regions, regions, p.next) && user.r.mapped == user.r.userBacked
    ensures ok ==> user.r.fd >= 0 && p.h == HEALTHY
    ensures ok ==> p.t == old(p.t).(setups := old(p.t.setups) + 1, nops := old(p.t.nops) + 1)
    ensures p.script.Flawless? && old(p.h) == HEALTHY ==> ok
  {
    ghost var rings, n := p.rings, p.next;
    ok := SetupUser(p, user);
    OpenedOneHolds(rings, owned, n, user.r, p.rings, p.next);
    HeldLater(p.regions, regions, n, p.next);
    if ok {
      ghost var m := p.next;
      ok := Refused(p, regions);
      HeldLater(p.rings, owned + Opened(user.r), m, p.next);
    }
    if ok {
      ok := CheckRing(p, user);
    }
  }

  /** A ring without mappings of its own is closed, and a failure counted. */
  method CloseCounted(p: Process, ring: RawRing, ghost owned: set<nat>)
    requires Held(p.rings, owned + Opened(ring.r), p.next) && owned !! Opened(ring.r)
    requires ring.r.mapped == ring.r.userBacked
    modifies p`calls, p`maps, p`rings, p`t, p`v, ring
    ensures Held(p.rings, owned, p.next) && p.maps == old(p.maps)
    ensures p.v == old(p.v).(cleanupFailures := p.v.cleanupFailures) && p.v.cleanupFailures >= old(p.v.cleanupFailures)
    ensures p.v == old(p.v) ==> p.t == AfterClose(old(p.t), old(ring.r))
    ensures p.script.Flawless? ==> p.v == old(p.v)
  {
    ghost var rings, r := p.rings, ring.r;
    var ok := CloseRing(p, ring);
    ClosedOneHolds(rings, owned, p.next, r, p.rings);
    if !ok {
      p.v := p.v.(cleanupFailures := p.v.cleanupFailures + 1);
    }
  }

  /** E0 between its two rings: the user ring, used and closed. */
  method E0User(p: Process, ghost owned: set<nat>, ghost regions: set<nat>) returns (ok: bool)
    requires Held(p.rings, owned, p.next) && Held(p.regions, regions, p.next)
    requires p.t == Tally(1, 0, 0, 0, 0) && p.v == Verdict(0, 0, 0, 0)
    modifies p`calls, p`next, p`maps, p`rings, p`regions, p`t, p`v, p`h, p`kept
    ensures Held(p.rings, owned, p.next) && Held(p.regions, regions, p.next) && p.maps == old(p.maps)
    ensures p.v == Verdict(0, if ok then 2 else 0, 0, p.v.cleanupFailures)
    ensures ok ==> p.h == HEALTHY && (p.v.cleanupFailures == 0 ==> p.t == Tally(2, 1, 0, 0, 1))
    ensures p.script.Flawless? && old(p.h) == HEALTHY ==> ok && p.v.cleanupFailures == 0
  {
    var user := new RawRing();
    ok := E0Use(p, user, owned, regions);
    if ok {
      p.v := p.v.(successful := 2);
    }
    CloseCounted(p, user, owned);
  }

  /** E0 with its standard ring open, up to the close of that ring. */
  method E0Inner(p: Process, ghost owned: set<nat>) returns (ok: bool, tried: bool, have: bool, ring: nat, sqes: nat)
    requires Held(p.rings, owned, p.next) && Held(p.regions, {}, p.next)
    requires p.t == Tally(1, 0, 0, 0, 0) && p.v == Verdict(0, 0, 0, 0)
    modifies p`calls, p`next, p`maps, p`rings, p`regions, p`t, p`v, p`h, p`kept
    ensures Held(p.rings, owned, p.next) && p.maps == old(p.maps)
    ensures Held(p.regions, if have then {ring} + {sqes} else {}, p.next) && (have ==> tried && ring != sqes)
    ensures p.v == Verdict(0, if ok then 2 else 0, 0, p.v.cleanupFailures)
    ensures ok ==> have && p.h == HEALTHY && (p.v.cleanupFailures == 0 ==> p.t == Tally(2, 1, 0, 0, 1))
    ensures p.script.Flawless? && old(p.h) == HEALTHY ==> ok && p.v.cleanupFailures == 0
  {
    ghost var n := p.next;
    ok, have, ring, sqes := false, false, 0, 0;
    tried := Refused(p, {});
    if tried {
      have, ring, sqes := AllocateRegions(p);
    }
    HeldLater(p.rings, owned, n, p.next);
    if have {
      ok := E0User(p, owned, {ring} + {sqes});
    }
  }

  /** The regions are given back. When they could not be had, one of their pointers is the error value, and unmapping
      that fails. */
  method E0Regions(p: Process, tried: bool, have: bool, ring: nat, sqes: nat)
    requires Held(p.regions, if have then {ring} + {sqes} else {}, p.next) && (have ==> tried && ring != sqes)
    modifies p`calls, p`regions, p`v
    ensures p.regions.live == p.regions.stuck
    ensures p.v == old(p.v).(cleanupFailures := p.v.cleanupFailures) && p.v.cleanupFailures >= old(p.v.cleanupFailures)
    ensures p.script.Flawless? && have ==> p.v == old(p.v)
  {
    if have {
      DropRegions(p, true, ring, true, sqes, {ring} + {sqes});
    } else if tried {
      p.calls := p.calls + 1;
      p.v := p.v.(cleanupFailures := p.v.cleanupFailures + 1);
    }
  }

  /** E0 with its standard ring open, then the cleanup in the source's order. */
  method E0Body(p: Process, standard: RawRing) returns (ok: bool)
    requires standard.r.fd >= 0 && standard.r == RESET.(fd := standard.r.fd)
    requires p.t == Tally(1, 0, 0, 0, 0) && p.v == Verdict(0, 0, 0, 0)
    requires Held(p.rings, Opened(standard.r), p.next) && p.regions == NOTHING
    modifies p, standard
    ensures p.rings.live == p.rings.stuck && p.regions.live == p.regions.stuck && p.maps == old(p.maps)
    ensures ok ==> p.h == HEALTHY && p.v == Verdict(0, 2, 0, p.v.cleanupFailures)
    ensures ok && p.v.cleanupFailures == 0 ==> p.t == Tally(2, 2, 0, 0, 1)
    ensures p.script.Flawless? && old(p.h) == HEALTHY ==> ok && p.v.cleanupFailures == 0
  {
    var tried, have, ring, sqes;
    ok, tried, have, ring, sqes := E0Inner(p, Opened(standard.r));
    assert {} + Opened(standard.r) == Opened(standard.r);
    CloseCounted(p, standard, {});
    E0Regions(p, tried, have, ring, sqes);
  }

  /** run_e0. It meets the rules; the mappings and regions that survive are only what could not be released; and so
      are the rings, except that a standard ring that opens with an invalid geometry is never closed. */
  method RunE0(p: Process) returns (ok: bool)
    requires p.t == Tally(0, 0, 0, 0, 0) && p.v == Verdict(0, 0, 0, 0)
    requires p.maps == p.rings == p.regions == NOTHING
    modifies p
    ensures CountersPass(E0, p.t, p.v, p.h, p.kept) <==> ok && p.v.cleanupFailures == 0
    ensures ok && CountersPass(E0, p.t, p.v, p.h, p.kept) ==> RowRules(E0, 2, p.t, p.v, p.h, p.kept)
    ensures p.maps.live == p.maps.stuck && p.regions.live == p.regions.stuck
    ensures p.rings.live == p.rings.stuck <==> !p.OpensInvalid(old(p.calls))
    ensures p.OpensInvalid(old(p.calls)) ==> !ok && p.rings == Pool({old(p.next)}, {})
    ensures p.script.Flawless? && old(p.h) == HEALTHY ==> ok && CountersPass(E0, p.t, p.v, p.h, p.kept)
  {
    var standard := new RawRing();
    ghost var n := p.next;
    ok := OpenFresh(p, standard);
    OpenedOneHolds(NOTHING, {}, n, standard.r, p.rings, p.next);
    if ok {
      assert {} + Opened(standard.r) == Opened(standard.r);
      ok := E0Body(p, standard);
    }
    p.v := p.v.(events := 2, validationFailures := p.v.validationFailures + if ok then 0 else 1);
  }
}
