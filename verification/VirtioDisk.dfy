/** The virtio block driver's descriptor protocol (kernel/virtio_disk.c) together with a device
    that takes submitted chains and completes them in any order, as sections 2.6 and 5.2 of
    VIRTIO 1.1 describe. Each method is what runs under one hold of vdisk_lock, or one device step. */
module VirtioDisk {

  const NUM: nat := 8
  const WRAP: nat := 0x1_0000    // ring indices are 16 bits wide

  // What a descriptor's address points at.
  datatype Addr = Nil | OpOf(i: nat) | DataOf(b: nat) | StatusOf(i: nat)
  datatype Desc = Desc(addr: Addr, len: nat, next: nat, more: bool, devWrites: bool)
  datatype Op = Op(out: bool, sector: nat)

  const ZERO: Desc := Desc(Nil, 0, 0, false, false)

  // Where a request is: in the available ring, with the device, in the used ring, or seen by the interrupt.
  datatype Phase = Queued | Taken | Completed | Seen
  datatype Req = Req(i1: nat, i2: nat, b: nat, write: bool, sector: nat, phase: Phase)

  function Rank(p: Phase): (n: nat) {
    match p
    case Queued => 0
    case Taken => 1
    case Completed => 2
    case Seen => 3
  }

  // What a device does on its own: take the next chain, or complete one it has taken.
  datatype Event = Takes | Completes(h: nat)

  // The contents of a buffer or a sector; zero before anything is written to it.
  function Contents(m: map<nat, int>, k: nat): (v: int) {
    if k in m then m[k] else 0
  }

  // Requests keep everything but their phase, which only moves on.
  ghost predicate Advanced(was: map<int, Req>, now: map<int, Req>) {
    && now.Keys == was.Keys
    && forall h :: h in now ==> now[h] == was[h].(phase := now[h].phase) && Rank(was[h].phase) <= Rank(now[h].phase)
  }

  // ---- rings ----

  // ring holds the queue q, whose first element was the start-th ever put there.
  ghost predicate RingHolds(ring: seq<nat>, q: seq<nat>, start: nat) {
    |ring| == NUM && forall j {:trigger q[j]} :: 0 <= j < |q| ==> ring[(start + j) % NUM] == q[j]
  }

  lemma RingPush(ring: seq<nat>, q: seq<nat>, start: nat, x: nat)
    requires RingHolds(ring, q, start) && |q| < NUM
    ensures RingHolds(ring[(start + |q|) % NUM := x], q + [x], start)
  {
    var ring' := ring[(start + |q|) % NUM := x];
    forall j | 0 <= j < |q| + 1 ensures ring'[(start + j) % NUM] == (q + [x])[j] {
      if j < |q| {
        assert ring[(start + j) % NUM] == q[j];
        assert (start + j) % NUM != (start + |q|) % NUM;
      }
    }
  }

  lemma RingPop(ring: seq<nat>, q: seq<nat>, start: nat)
    requires RingHolds(ring, q, start) && q != []
    ensures ring[start % NUM] == q[0] && RingHolds(ring, q[1..], start + 1)
  {
    assert ring[(start + 0) % NUM] == q[0];
    forall j | 0 <= j < |q| - 1 ensures ring[(start + 1 + j) % NUM] == q[1..][j] {
      assert ring[(start + (j + 1)) % NUM] == q[j + 1];
    }
  }

  /** A 16-bit index picks the same slot as the full count, because NUM divides 2^16. */
  lemma SlotOf(n: nat)
    ensures (n % WRAP) % NUM == n % NUM
  {
  }

  /** Two counts that differ by less than 2^16 are equal exactly when their 16-bit indices are. */
  lemma IndexTells(m: nat, n: nat)
    requires m <= n < m + WRAP
    ensures m % WRAP == n % WRAP <==> m == n
  {
  }

  function Bump(x: nat): (r: nat)
    ensures r < WRAP
  {
    (x + 1) % WRAP
  }

  lemma BumpIs(n: nat)
    ensures Bump(n % WRAP) == (n + 1) % WRAP
  {
  }

  // Descriptor numbers, all different.
  ghost predicate Heads(q: seq<nat>) {
    && (forall j :: 0 <= j < |q| ==> q[j] < NUM)
    && (forall j, k :: 0 <= j < k < |q| ==> q[j] != q[k])
  }

  lemma {:induction false} HeadsFit(q: seq<nat>, n: nat)
    requires forall j :: 0 <= j < |q| ==> q[j] < n
    requires forall j, k :: 0 <= j < k < |q| ==> q[j] != q[k]
    ensures |q| <= n
  {
    if q != [] {
      assert q[0] < n;
      if k :| 0 <= k < |q| && q[k] == n - 1 {
        var r := q[..k] + q[k + 1..];
        forall j | 0 <= j < |r| ensures r[j] < n - 1 && r[j] == q[if j < k then j else j + 1] {
        }
        HeadsFit(r, n - 1);
      } else {
        HeadsFit(q, n - 1);
      }
    }
  }

  // A ring between a producer at count n and a consumer at count m, kept as 16-bit indices put and got.
  datatype Ring = Ring(ring: seq<nat>, put: nat, got: nat, n: nat, m: nat, q: seq<nat>)

  ghost predicate RingOk(r: Ring) {
    r.put == r.n % WRAP && r.got == r.m % WRAP && r.m + |r.q| == r.n && RingHolds(r.ring, r.q, r.m) && Heads(r.q)
  }

  ghost function Pushed(r: Ring, x: nat): (r2: Ring)
    requires |r.ring| == NUM
  {
    Ring(r.ring[r.put % NUM := x], Bump(r.put), r.got, r.n + 1, r.m, r.q + [x])
  }

  ghost function Popped(r: Ring): (r2: Ring)
    requires r.q != []
  {
    Ring(r.ring, r.put, Bump(r.got), r.n, r.m + 1, r.q[1..])
  }

  lemma Put(r: Ring, x: nat)
    requires RingOk(r) && x < NUM && x !in r.q
    ensures RingOk(Pushed(r, x))
  {
    assert Heads(r.q + [x]);
    HeadsFit(r.q + [x], NUM);
    RingPush(r.ring, r.q, r.m, x);
    SlotOf(r.n);
    BumpIs(r.n);
  }

  lemma Get(r: Ring)
    requires RingOk(r)
    ensures r.got == r.put <==> r.q == []
    ensures r.q != [] ==> r.ring[r.got % NUM] == r.q[0] && RingOk(Popped(r))
  {
    HeadsFit(r.q, NUM);
    IndexTells(r.m, r.n);
    if r.q != [] {
      RingPop(r.ring, r.q, r.m);
      SlotOf(r.m);
      BumpIs(r.m);
    }
  }

  // ---- the invariant, request by request ----

  // The descriptor table and the driver's notes on it.
  datatype Table = Table(free: seq<bool>, desc: seq<Desc>, ops: seq<Op>, infoB: seq<nat>, owner: seq<int>)

  ghost predicate Sized(t: Table) {
    |t.free| == |t.desc| == |t.ops| == |t.infoB| == |t.owner| == NUM
  }

  ghost predicate ChainOk(t: Table, h: nat, r: Req)
    requires Sized(t)
  {
    && h < NUM && r.i1 < NUM && r.i2 < NUM && h != r.i1 && h != r.i2 && r.i1 != r.i2
    && t.owner[h] == h && t.owner[r.i1] == h && t.owner[r.i2] == h
    && t.desc[h] == Desc(OpOf(h), 16, r.i1, true, false)
    && t.desc[r.i1] == Desc(DataOf(r.b), 1024, r.i2, true, !r.write)
    && t.desc[r.i2] == Desc(StatusOf(h), 1, 0, false, true)
    && t.ops[h] == Op(r.write, r.sector) && t.infoB[h] == r.b
  }

  ghost predicate OwnerOk(t: Table, reqs: map<int, Req>, i: nat)
    requires Sized(t) && i < NUM
  {
    && (t.free[i] <==> t.owner[i] == -1)
    && (t.free[i] ==> t.desc[i] == ZERO)
    && (t.owner[i] != -1 ==> t.owner[i] >= 0 && t.owner[i] in reqs && i in {t.owner[i], reqs[t.owner[i]].i1, reqs[t.owner[i]].i2})
  }

  // Free descriptors and the three of each request, and nothing else.
  ghost predicate Descs(t: Table, reqs: map<int, Req>) {
    && Sized(t)
    && (forall h {:trigger h in reqs} :: h in reqs ==> 0 <= h < NUM && ChainOk(t, h, reqs[h]))
    && (forall i {:trigger t.owner[i]} :: 0 <= i < NUM ==> OwnerOk(t, reqs, i))
  }

  // The phase of each request, and its buffer's flag and status byte.
  ghost predicate PhaseOk(waiting: set<nat>, status: seq<nat>, availQ: seq<nat>, inflight: set<nat>, usedQ: seq<nat>, h: nat, r: Req)
    requires |status| == NUM && h < NUM
  {
    && (h in availQ <==> r.phase == Queued)
    && (h in inflight <==> r.phase == Taken)
    && (h in usedQ <==> r.phase == Completed)
    && (r.b in waiting <==> r.phase != Seen)
    && (r.phase == Queued || r.phase == Taken ==> status[h] == 255)
    && (r.phase == Completed ==> status[h] == 0)
  }

  // Every request is in one phase, and its buffer belongs to it alone.
  ghost predicate Phases(reqs: map<int, Req>, waiting: set<nat>, status: seq<nat>, availQ: seq<nat>, inflight: set<nat>, usedQ: seq<nat>) {
    && |status| == NUM
    && (forall h {:trigger h in reqs} :: h in reqs ==> 0 <= h < NUM && PhaseOk(waiting, status, availQ, inflight, usedQ, h, reqs[h]))
    && (forall h :: h in availQ || h in inflight || h in usedQ ==> h in reqs)
    && (forall g, h :: g in reqs && h in reqs && g != h ==> reqs[g].b != reqs[h].b)
  }

  lemma Enqueued(reqs: map<int, Req>, waiting: set<nat>, status: seq<nat>, availQ: seq<nat>, inflight: set<nat>, usedQ: seq<nat>, h: nat, r: Req)
    requires Phases(reqs, waiting, status, availQ, inflight, usedQ) && h < NUM && h !in reqs && r.phase == Queued
    requires (forall g :: g in reqs ==> reqs[g].b != r.b) && r.b !in waiting
    ensures h !in availQ
    ensures Phases(reqs[h := r], waiting + {r.b}, status[h := 255], availQ + [h], inflight, usedQ)
  {
  }

  lemma Fetched(reqs: map<int, Req>, waiting: set<nat>, status: seq<nat>, availQ: seq<nat>, inflight: set<nat>, usedQ: seq<nat>)
    requires Phases(reqs, waiting, status, availQ, inflight, usedQ) && availQ != [] && Heads(availQ)
    ensures var h := availQ[0];
            h in reqs && Phases(reqs[h := reqs[h].(phase := Taken)], waiting, status, availQ[1..], inflight + {h}, usedQ)
  {
    var h := availQ[0];
    assert h in availQ;
    assert availQ == [h] + availQ[1..];
    assert h !in availQ[1..];
  }

  lemma Done(reqs: map<int, Req>, waiting: set<nat>, status: seq<nat>, availQ: seq<nat>, inflight: set<nat>, usedQ: seq<nat>, h: nat)
    requires Phases(reqs, waiting, status, availQ, inflight, usedQ) && h in inflight
    ensures h in reqs && h < NUM && h !in usedQ
    ensures Phases(reqs[h := reqs[h].(phase := Completed)], waiting, status[h := 0], availQ, inflight - {h}, usedQ + [h])
  {
  }

  lemma Noticed(reqs: map<int, Req>, waiting: set<nat>, status: seq<nat>, availQ: seq<nat>, inflight: set<nat>, usedQ: seq<nat>)
    requires Phases(reqs, waiting, status, availQ, inflight, usedQ) && usedQ != [] && Heads(usedQ)
    ensures var h := usedQ[0];
            h in reqs && h < NUM && status[h] == 0
            && Phases(reqs[h := reqs[h].(phase := Seen)], waiting - {reqs[h].b}, status, availQ, inflight, usedQ[1..])
  {
    var h := usedQ[0];
    assert h in usedQ;
    assert usedQ == [h] + usedQ[1..];
    assert h !in usedQ[1..];
  }

  lemma Retired(reqs: map<int, Req>, waiting: set<nat>, status: seq<nat>, availQ: seq<nat>, inflight: set<nat>, usedQ: seq<nat>, h: nat)
    requires Phases(reqs, waiting, status, availQ, inflight, usedQ) && h in reqs && reqs[h].phase == Seen
    ensures Phases(reqs - {h}, waiting, status, availQ, inflight, usedQ)
  {
  }

  // free0 without the descriptors in idx.
  ghost function Taken3(free0: seq<bool>, idx: seq<nat>): (r: seq<bool>)
    requires forall k :: 0 <= k < |idx| ==> idx[k] < |free0|
    ensures |r| == |free0|
    ensures forall i :: 0 <= i < |r| ==> (r[i] <==> free0[i] && i !in idx)
  {
    if idx == [] then free0 else Taken3(free0, idx[..|idx| - 1])[idx[|idx| - 1] := false]
  }

  ghost predicate AllFree(free: seq<bool>, a: int, b: int, c: int) {
    0 <= a < b < c < |free| && free[a] && free[b] && free[c]
  }

  ghost predicate ThreeFree(free: seq<bool>) {
    exists a, b, c :: AllFree(free, a, b, c)
  }

  lemma FewFree(free0: seq<bool>, idx: seq<nat>)
    requires |idx| <= 2 && (forall k :: 0 <= k < |idx| ==> idx[k] < |free0|)
    requires forall i :: 0 <= i < |free0| ==> !Taken3(free0, idx)[i]
    ensures !ThreeFree(free0)
  {
    forall i | 0 <= i < |free0| && free0[i] ensures i in idx {
      assert !Taken3(free0, idx)[i];
    }
  }

  // ---- a new chain, and one given back ----

  ghost function Chained(desc: seq<Desc>, h: nat, r: Req): (d: seq<Desc>)
    requires |desc| == NUM && h < NUM && r.i1 < NUM && r.i2 < NUM
  {
    desc[h := Desc(OpOf(h), 16, r.i1, true, false)]
        [r.i1 := Desc(DataOf(r.b), 1024, r.i2, true, !r.write)]
        [r.i2 := Desc(StatusOf(h), 1, 0, false, true)]
  }

  ghost function Added(t: Table, h: nat, r: Req): (t2: Table)
    requires Sized(t) && h < NUM && r.i1 < NUM && r.i2 < NUM
  {
    Table(t.free[h := false][r.i1 := false][r.i2 := false], Chained(t.desc, h, r), t.ops[h := Op(r.write, r.sector)],
          t.infoB[h := r.b], t.owner[h := h][r.i1 := h][r.i2 := h])
  }

  ghost function Dropped(t: Table, h: nat, r: Req): (t2: Table)
    requires Sized(t) && h < NUM && r.i1 < NUM && r.i2 < NUM
  {
    Table(t.free[h := true][r.i1 := true][r.i2 := true], t.desc[h := ZERO][r.i1 := ZERO][r.i2 := ZERO], t.ops,
          t.infoB[h := 0], t.owner[h := -1][r.i1 := -1][r.i2 := -1])
  }

  lemma AddedOk(t: Table, reqs: map<int, Req>, h: nat, r: Req)
    requires Descs(t, reqs)
    requires h < NUM && r.i1 < NUM && r.i2 < NUM && h != r.i1 && h != r.i2 && r.i1 != r.i2 && t.free[h] && t.free[r.i1] && t.free[r.i2]
    ensures h !in reqs && Descs(Added(t, h, r), reqs[h := r])
  {
    var t', reqs' := Added(t, h, r), reqs[h := r];
    assert OwnerOk(t, reqs, h) && OwnerOk(t, reqs, r.i1) && OwnerOk(t, reqs, r.i2);
    assert t.owner[h] == -1 && t.owner[r.i1] == -1 && t.owner[r.i2] == -1;
    forall i: nat | i < NUM ensures OwnerOk(t', reqs', i) {
      assert OwnerOk(t, reqs, i);
    }
    forall g | g in reqs' ensures 0 <= g < NUM && ChainOk(t', g, reqs'[g]) {
      if g != h {
        KeptChain(t, h, r, g, reqs[g]);
      }
    }
  }

  lemma KeptChain(t: Table, h: nat, r: Req, g: nat, q: Req)
    requires Sized(t) && h < NUM && r.i1 < NUM && r.i2 < NUM && t.free[h] && t.free[r.i1] && t.free[r.i2]
    requires ChainOk(t, g, q) && t.owner[h] == -1 && t.owner[r.i1] == -1 && t.owner[r.i2] == -1
    ensures ChainOk(Added(t, h, r), g, q)
  {
  }

  lemma DroppedOk(t: Table, reqs: map<int, Req>, h: nat)
    requires Descs(t, reqs) && h in reqs
    ensures Descs(Dropped(t, h, reqs[h]), reqs - {h})
  {
    var t', reqs' := Dropped(t, h, reqs[h]), reqs - {h};
    forall i: nat | i < NUM ensures OwnerOk(t', reqs', i) {
      assert OwnerOk(t, reqs, i);
    }
    forall g | g in reqs' ensures 0 <= g < NUM && ChainOk(t', g, reqs'[g]) {
      OtherChain(t, h, reqs[h], g, reqs[g]);
    }
  }

  // Giving back one chain leaves another alone.
  lemma OtherChain(t: Table, h: nat, r: Req, g: nat, q: Req)
    requires Sized(t) && ChainOk(t, h, r) && ChainOk(t, g, q) && g != h
    ensures ChainOk(Dropped(t, h, r), g, q)
  {
  }

  // Changing a request's phase leaves its descriptors alone.
  lemma PhaseDescs(t: Table, reqs: map<int, Req>, h: nat, p: Phase)
    requires Descs(t, reqs) && h in reqs
    ensures Descs(t, reqs[h := reqs[h].(phase := p)])
  {
    var reqs' := reqs[h := reqs[h].(phase := p)];
    forall i: nat | i < NUM ensures OwnerOk(t, reqs', i) {
      assert OwnerOk(t, reqs, i);
    }
  }

  lemma Three(free0: seq<bool>, idx: seq<nat>)
    requires |idx| == 3 && idx[0] != idx[1] && idx[0] != idx[2] && idx[1] != idx[2]
    requires forall k :: 0 <= k < |idx| ==> idx[k] < |free0| && free0[idx[k]]
    ensures Taken3(free0, idx) == free0[idx[0] := false][idx[1] := false][idx[2] := false] && ThreeFree(free0)
  {
    ThreeOf(free0, idx[0], idx[1], idx[2]);
  }

  lemma ThreeOf(free: seq<bool>, a: nat, b: nat, c: nat)
    requires a < |free| && b < |free| && c < |free| && a != b && a != c && b != c && free[a] && free[b] && free[c]
    ensures ThreeFree(free)
  {
    var x := if a < b && a < c then a else if b < c then b else c;
    var z := if a > b && a > c then a else if b > c then b else c;
    var y := if a != x && a != z then a else if b != x && b != z then b else c;
    assert AllFree(free, x, y, z);
  }

  // ---- driver and device together ----

  datatype Snap = Snap(t: Table, a: Ring, u: Ring, waiting: set<nat>, status: seq<nat>, reqs: map<int, Req>, inflight: set<nat>)

  datatype Part = Chains | Available | Used | Progress

  ghost predicate PartOk(s: Snap, part: Part) {
    match part
    case Chains => Descs(s.t, s.reqs)
    case Available => RingOk(s.a)
    case Used => RingOk(s.u)
    case Progress => Phases(s.reqs, s.waiting, s.status, s.a.q, s.inflight, s.u.q)
  }

  ghost predicate Ok(s: Snap) {
    forall part {:trigger PartOk(s, part)} :: PartOk(s, part)
  }

  lemma Parts(s: Snap)
    requires Ok(s)
    ensures Descs(s.t, s.reqs) && RingOk(s.a) && RingOk(s.u) && Phases(s.reqs, s.waiting, s.status, s.a.q, s.inflight, s.u.q)
  {
    assert PartOk(s, Chains) && PartOk(s, Available) && PartOk(s, Used) && PartOk(s, Progress);
  }

  lemma FreeAreZero(s: Snap)
    requires Ok(s)
    ensures Sized(s.t) && |s.status| == NUM && |s.a.ring| == NUM
    ensures forall i :: 0 <= i < NUM && s.t.free[i] ==> s.t.desc[i] == ZERO
  {
    Parts(s);
    forall i: nat | i < NUM && s.t.free[i] ensures s.t.desc[i] == ZERO {
      assert OwnerOk(s.t, s.reqs, i);
    }
  }

  // What the descriptors of request h say.
  lemma ChainAt(s: Snap, h: nat)
    requires Ok(s) && h in s.reqs
    ensures Sized(s.t) && ChainOk(s.t, h, s.reqs[h]) && |s.status| == NUM
    ensures var r := s.reqs[h];
            !s.t.free[h] && !s.t.free[r.i1] && !s.t.free[r.i2] && (r.b in s.waiting <==> r.phase != Seen)
  {
    Parts(s);
    assert OwnerOk(s.t, s.reqs, h) && OwnerOk(s.t, s.reqs, s.reqs[h].i1) && OwnerOk(s.t, s.reqs, s.reqs[h].i2);
  }

  lemma InFlight(s: Snap, h: nat)
    requires Ok(s) && h in s.inflight
    ensures h in s.reqs && s.reqs[h].phase == Taken
  {
    Parts(s);
  }

  lemma CompletedHeads(s: Snap)
    requires Ok(s)
    ensures forall h :: h in s.reqs ==> h >= 0 && (h in s.u.q <==> s.reqs[h].phase == Completed)
  {
    Parts(s);
  }

  lemma QueuedFirst(s: Snap)
    requires Ok(s) && s.a.q != []
    ensures s.a.q[0] in s.reqs && s.reqs[s.a.q[0]].phase == Queued
  {
    Parts(s);
    assert s.a.q[0] in s.a.q;
  }

  lemma AdvancedOn(a: map<int, Req>, b: map<int, Req>, c: map<int, Req>)
    requires Advanced(a, b) && Advanced(b, c)
    ensures Advanced(a, c)
  {
  }

  // Nothing but completed requests have moved on, and those only to seen.
  ghost predicate OnlySeen(was: map<int, Req>, now: map<int, Req>) {
    && now.Keys == was.Keys
    && forall h :: h in now ==> now[h] == was[h] || (was[h].phase == Completed && now[h] == was[h].(phase := Seen))
  }

  // With an empty used ring no completed request is left.
  lemma AllSeen(s: Snap, was: map<int, Req>)
    requires Ok(s) && s.u.q == [] && Advanced(was, s.reqs)
    ensures forall h :: h in s.reqs ==> s.reqs[h].phase != Completed
    ensures forall h :: h in s.reqs && was[h].phase == Completed ==> s.reqs[h].phase == Seen
    ensures forall h :: h in s.reqs ==> (s.reqs[h].b in s.waiting <==> s.reqs[h].phase != Seen)
  {
    CompletedHeads(s);
    forall h | h in s.reqs ensures s.reqs[h].b in s.waiting <==> s.reqs[h].phase != Seen {
      ChainAt(s, h);
    }
  }

  ghost predicate InChain(reqs: map<int, Req>, h: int, i: int) {
    h in reqs && (i == h || i == reqs[h].i1 || i == reqs[h].i2)
  }

  /** Every descriptor is free or in exactly one request's chain, which keeps it until Finish. */
  lemma DescriptorsSplit(s: Snap, i: nat, g: int, h: int)
    requires Ok(s) && i < NUM
    ensures Sized(s.t) && (s.t.free[i] <==> !exists k :: InChain(s.reqs, k, i))
    ensures InChain(s.reqs, g, i) && InChain(s.reqs, h, i) ==> g == h
  {
    Parts(s);
    assert OwnerOk(s.t, s.reqs, i);
    forall k | InChain(s.reqs, k, i) ensures s.t.owner[i] == k {
      assert k in s.reqs;
    }
    if !s.t.free[i] {
      assert InChain(s.reqs, s.t.owner[i], i);
    }
  }

  lemma SubmittedOk(s: Snap, h: nat, r: Req)
    requires Ok(s) && Sized(s.t) && |s.status| == NUM && |s.a.ring| == NUM
    requires h < NUM && r.i1 < NUM && r.i2 < NUM && h != r.i1 && h != r.i2 && r.i1 != r.i2 && s.t.free[h] && s.t.free[r.i1] && s.t.free[r.i2]
    requires r.phase == Queued && (forall g :: g in s.reqs ==> s.reqs[g].b != r.b) && r.b !in s.waiting
    ensures h !in s.reqs
    ensures Ok(s.(t := Added(s.t, h, r), a := Pushed(s.a, h), waiting := s.waiting + {r.b}, status := s.status[h := 255], reqs := s.reqs[h := r]))
  {
    Parts(s);
    AddedOk(s.t, s.reqs, h, r);
    Enqueued(s.reqs, s.waiting, s.status, s.a.q, s.inflight, s.u.q, h, r);
    Put(s.a, h);
  }

  lemma TakenOk(s: Snap)
    requires Ok(s)
    ensures s.a.got == s.a.put <==> s.a.q == []
    ensures s.a.q != [] ==> var h := s.a.q[0];
              && |s.a.ring| == NUM && s.a.ring[s.a.got % NUM] == h && h in s.reqs
              && Ok(s.(a := Popped(s.a), reqs := s.reqs[h := s.reqs[h].(phase := Taken)], inflight := s.inflight + {h}))
  {
    Parts(s);
    Get(s.a);
    if s.a.q != [] {
      Fetched(s.reqs, s.waiting, s.status, s.a.q, s.inflight, s.u.q);
      PhaseDescs(s.t, s.reqs, s.a.q[0], Taken);
    }
  }

  lemma CompletedOk(s: Snap, h: nat)
    requires Ok(s) && h in s.inflight
    ensures h in s.reqs && h < NUM && |s.u.ring| == NUM && |s.status| == NUM
    ensures Ok(s.(u := Pushed(s.u, h), status := s.status[h := 0], reqs := s.reqs[h := s.reqs[h].(phase := Completed)], inflight := s.inflight - {h}))
  {
    Parts(s);
    Done(s.reqs, s.waiting, s.status, s.a.q, s.inflight, s.u.q, h);
    Put(s.u, h);
    PhaseDescs(s.t, s.reqs, h, Completed);
  }

  lemma SeenOk(s: Snap)
    requires Ok(s)
    ensures s.u.got == s.u.put <==> s.u.q == []
    ensures s.u.q != [] ==> var h := s.u.q[0];
              && h in s.reqs && h < NUM && |s.u.ring| == NUM && |s.status| == NUM && |s.t.infoB| == NUM
              && s.u.ring[s.u.got % NUM] == h && s.status[h] == 0 && s.t.infoB[h] == s.reqs[h].b
              && Ok(s.(u := Popped(s.u), waiting := s.waiting - {s.reqs[h].b}, reqs := s.reqs[h := s.reqs[h].(phase := Seen)]))
  {
    Parts(s);
    Get(s.u);
    if s.u.q != [] {
      Noticed(s.reqs, s.waiting, s.status, s.a.q, s.inflight, s.u.q);
      PhaseDescs(s.t, s.reqs, s.u.q[0], Seen);
    }
  }

  lemma FinishedOk(s: Snap, h: nat)
    requires Ok(s) && h in s.reqs && s.reqs[h].phase == Seen
    ensures Sized(s.t) && h < NUM && s.reqs[h].i1 < NUM && s.reqs[h].i2 < NUM
    ensures Ok(s.(t := Dropped(s.t, h, s.reqs[h]), reqs := s.reqs - {h}))
  {
    Parts(s);
    DroppedOk(s.t, s.reqs, h);
    Retired(s.reqs, s.waiting, s.status, s.a.q, s.inflight, s.u.q, h);
  }

  class Disk {
    var free: seq<bool>
    var desc: seq<Desc>
    var ops: seq<Op>
    var infoB: seq<nat>        // info[i].b
    var status: seq<nat>       // info[i].status
    var availRing: seq<nat>
    var availIdx: nat
    var usedRing: seq<nat>
    var usedIdx: nat
    var seenIdx: nat           // the driver's used_idx
    var takenIdx: nat          // how far the device has read the available ring
    var inflight: set<nat>     // the chains the device is working on
    var waiting: set<nat>      // buffers whose disk flag is 1
    var data: map<nat, int>    // contents of buffers
    var store: map<nat, int>   // contents of the disk, by sector
    ghost var reqs: map<int, Req>
    ghost var owner: seq<int>
    ghost var availN: nat
    ghost var takenN: nat
    ghost var usedN: nat
    ghost var seenN: nat
    ghost var availQ: seq<nat>
    ghost var usedQ: seq<nat>

    ghost function Now(): (s: Snap)
      reads this
    {
      Snap(Table(free, desc, ops, infoB, owner), Ring(availRing, availIdx, takenIdx, availN, takenN, availQ),
           Ring(usedRing, usedIdx, seenIdx, usedN, seenN, usedQ), waiting, status, reqs, inflight)
    }

    ghost predicate Valid()
      reads this
    {
      Ok(Now())
    }

    // virtio_disk_init: every descriptor free, empty rings.
    constructor (store0: map<nat, int>)
      ensures Valid() && reqs == map[] && store == store0 && data == map[] && |free| == NUM && forall i :: 0 <= i < NUM ==> free[i]
    {
      free := [true, true, true, true, true, true, true, true];
      desc := [ZERO, ZERO, ZERO, ZERO, ZERO, ZERO, ZERO, ZERO];
      ops := [Op(false, 0), Op(false, 0), Op(false, 0), Op(false, 0), Op(false, 0), Op(false, 0), Op(false, 0), Op(false, 0)];
      infoB, status, availRing, usedRing := [0, 0, 0, 0, 0, 0, 0, 0], [0, 0, 0, 0, 0, 0, 0, 0], [0, 0, 0, 0, 0, 0, 0, 0], [0, 0, 0, 0, 0, 0, 0, 0];
      availIdx, usedIdx, seenIdx, takenIdx := 0, 0, 0, 0;
      waiting, data, store := {}, map[], store0;
      reqs, owner := map[], [-1, -1, -1, -1, -1, -1, -1, -1];
      availN, takenN, usedN, seenN := 0, 0, 0, 0;
      availQ, inflight, usedQ := [], {}, [];
      new;
      ghost var t := Now().t;
      forall i: nat | i < NUM ensures OwnerOk(t, reqs, i) {
        assert i == 0 || i == 1 || i == 2 || i == 3 || i == 4 || i == 5 || i == 6 || i == 7;
      }
      assert PartOk(Now(), Chains) && PartOk(Now(), Available) && PartOk(Now(), Used) && PartOk(Now(), Progress);
    }

    // The user of a buffer that no request has changes its contents.
    method Fill(b: nat, v: int)
      requires Valid() && forall g :: g in reqs ==> reqs[g].b != b
      modifies this`data
      ensures Valid() && data == old(data)[b := v]
    {
      data := data[b := v];
    }

    method AllocDesc() returns (i: int)
      requires |free| == NUM
      modifies this`free
      ensures i == -1 <==> forall j :: 0 <= j < NUM ==> !old(free)[j]
      ensures i == -1 ==> free == old(free)
      ensures i != -1 ==> 0 <= i < NUM && old(free)[i] && free == old(free)[i := false]
    {
      i := 0;
      while i < NUM
        invariant 0 <= i <= NUM && free == old(free)
        invariant forall j :: 0 <= j < i ==> !free[j]
      {
        if free[i] {
          free := free[i := false];
          return;
        }
        i := i + 1;
      }
      i := -1;
    }

    // The source's two panics are the precondition.
    method FreeDesc(i: nat)
      requires |free| == NUM && |desc| == NUM && i < NUM && !free[i]
      modifies this`free, this`desc
      ensures free == old(free)[i := true] && desc == old(desc)[i := ZERO]
    {
      desc := desc[i := ZERO];
      free := free[i := true];
    }

    // Three free descriptors, or none taken: a partial allocation is undone.
    method Alloc3Desc() returns (idx: seq<nat>)
      requires |free| == NUM && |desc| == NUM && (forall i :: 0 <= i < NUM && free[i] ==> desc[i] == ZERO)
      modifies this`free, this`desc
      ensures idx == [] || |idx| == 3
      ensures desc == old(desc)
      ensures idx != [] <==> ThreeFree(old(free))
      ensures idx == [] ==> free == old(free)
      ensures idx != [] ==> && idx[0] < NUM && idx[1] < NUM && idx[2] < NUM && idx[0] != idx[1] && idx[0] != idx[2] && idx[1] != idx[2]
                            && old(free)[idx[0]] && old(free)[idx[1]] && old(free)[idx[2]]
                            && free == old(free)[idx[0] := false][idx[1] := false][idx[2] := false]
    {
      idx := [];
      ghost var free0 := free;
      while |idx| < 3
        invariant |idx| <= 3 && |free| == NUM && desc == old(desc)
        invariant forall k :: 0 <= k < |idx| ==> idx[k] < NUM && free0[idx[k]]
        invariant forall k, l :: 0 <= k < l < |idx| ==> idx[k] != idx[l]
        invariant free == Taken3(free0, idx)
        decreases 3 - |idx|
      {
        var i := AllocDesc();
        if i < 0 {
          FewFree(free0, idx);
          GiveBack(idx, free0);
          return [];
        }
        idx := idx + [i];
        assert idx[..|idx| - 1] + [i] == idx;
      }
      Three(free0, idx);
    }

    // alloc3_desc's inner loop.
    method GiveBack(idx: seq<nat>, ghost free0: seq<bool>)
      requires |free0| == NUM && |desc| == NUM
      requires forall k :: 0 <= k < |idx| ==> idx[k] < NUM && free0[idx[k]] && desc[idx[k]] == ZERO
      requires forall k, l :: 0 <= k < l < |idx| ==> idx[k] != idx[l]
      requires free == Taken3(free0, idx)
      modifies this`free, this`desc
      ensures free == free0 && desc == old(desc)
    {
      var j := 0;
      while j < |idx|
        invariant 0 <= j <= |idx| && |free| == NUM && desc == old(desc)
        invariant forall i {:trigger free[i]} :: 0 <= i < NUM ==> (free[i] <==> free0[i] && i !in idx[j..])
      {
        FreeDesc(idx[j]);
        j := j + 1;
      }
    }

    // virtio_disk_rw up to the notification. False: fewer than three descriptors are free, and
    // the caller sleeps and tries again.
    method Submit(b: nat, blockno: nat, write: bool) returns (ok: bool, h: nat)
      requires Valid() && (forall g :: g in reqs ==> reqs[g].b != b) && b !in waiting
      modifies this`free, this`desc, this`ops, this`infoB, this`status, this`waiting, this`availRing, this`availIdx
      modifies this`reqs, this`owner, this`availN, this`availQ
      ensures Valid()
      ensures ok <==> old(ThreeFree(free))
      ensures !ok ==> Now() == old(Now())
      ensures ok ==> h !in old(reqs) && h in reqs && reqs == old(reqs)[h := reqs[h]]
      ensures ok ==> reqs[h].b == b && reqs[h].write == write && reqs[h].sector == blockno * 2 && reqs[h].phase == Queued
    {
      ok, h := SubmitAt(b, write, blockno * (1024 / 512));
    }

    method SubmitAt(b: nat, write: bool, sector: nat) returns (ok: bool, h: nat)
      requires Valid() && (forall g :: g in reqs ==> reqs[g].b != b) && b !in waiting
      modifies this`free, this`desc, this`ops, this`infoB, this`status, this`waiting, this`availRing, this`availIdx
      modifies this`reqs, this`owner, this`availN, this`availQ
      ensures Valid()
      ensures ok <==> old(ThreeFree(free))
      ensures !ok ==> Now() == old(Now())
      ensures ok ==> h !in old(reqs) && h in reqs && reqs == old(reqs)[h := reqs[h]]
      ensures ok ==> reqs[h] == Req(reqs[h].i1, reqs[h].i2, b, write, sector, Queued)
    {
      ghost var s := Now();
      FreeAreZero(s);
      var idx := Alloc3Desc();
      if idx == [] {
        return false, 0;
      }
      h := idx[0];
      Send(h, idx[1], idx[2], b, write, sector, s);
      return true, h;
    }

    // With the three descriptors taken.
    method Send(i0: nat, i1: nat, i2: nat, b: nat, write: bool, sector: nat, ghost s: Snap)
      requires Ok(s) && Sized(s.t) && |s.status| == NUM && |s.a.ring| == NUM
      requires i0 < NUM && i1 < NUM && i2 < NUM && i0 != i1 && i0 != i2 && i1 != i2 && s.t.free[i0] && s.t.free[i1] && s.t.free[i2]
      requires (forall g :: g in s.reqs ==> s.reqs[g].b != b) && b !in s.waiting
      requires Now() == s.(t := s.t.(free := s.t.free[i0 := false][i1 := false][i2 := false]))
      modifies this`desc, this`ops, this`infoB, this`status, this`waiting, this`availRing, this`availIdx
      modifies this`reqs, this`owner, this`availN, this`availQ
      ensures Valid() && i0 !in s.reqs && reqs == s.reqs[i0 := Req(i1, i2, b, write, sector, Queued)]
    {
      Format(i0, i1, i2, b, write, sector);
      Publish(i0, b, Req(i1, i2, b, write, sector, Queued), s);
    }

    // The three descriptors of a request.
    method Format(i0: nat, i1: nat, i2: nat, b: nat, write: bool, sector: nat)
      requires |desc| == |ops| == |infoB| == NUM && i0 < NUM && i1 < NUM && i2 < NUM && i0 != i1 && i0 != i2 && i1 != i2
      modifies this`desc, this`ops, this`infoB
      ensures desc == Chained(old(desc), i0, Req(i1, i2, b, write, sector, Queued))
      ensures ops == old(ops)[i0 := Op(write, sector)] && infoB == old(infoB)[i0 := b]
    {
      ops := ops[i0 := Op(write, sector)];
      desc := desc[i0 := Desc(OpOf(i0), 16, i1, true, false)];
      desc := desc[i1 := Desc(DataOf(b), 1024, i2, true, !write)];
      desc := desc[i2 := Desc(StatusOf(i0), 1, 0, false, true)];
      infoB := infoB[i0 := b];
    }

    // The buffer's flag and the available ring.
    method Publish(i0: nat, b: nat, ghost r: Req, ghost s: Snap)
      requires Ok(s) && Sized(s.t) && |s.status| == NUM && |s.a.ring| == NUM
      requires i0 < NUM && r.i1 < NUM && r.i2 < NUM && i0 != r.i1 && i0 != r.i2 && r.i1 != r.i2
      requires s.t.free[i0] && s.t.free[r.i1] && s.t.free[r.i2] && r.phase == Queued && r.b == b
      requires (forall g :: g in s.reqs ==> s.reqs[g].b != r.b) && b !in s.waiting
      requires Now() == s.(t := Added(s.t, i0, r).(owner := s.t.owner))
      modifies this`status, this`waiting, this`availRing, this`availIdx, this`reqs, this`owner, this`availN, this`availQ
      ensures Valid() && i0 !in s.reqs && reqs == s.reqs[i0 := r]
    {
      SubmittedOk(s, i0, r);
      status := status[i0 := 255];
      waiting := waiting + {b};
      PutAvail(i0);
      Record(i0, r);
      assert Now() == s.(t := Added(s.t, i0, r), a := Pushed(s.a, i0), waiting := s.waiting + {r.b}, status := s.status[i0 := 255], reqs := s.reqs[i0 := r]);
    }

    method PutAvail(i0: nat)
      requires |availRing| == NUM
      modifies this`availRing, this`availIdx, this`availN, this`availQ
      ensures Now() == old(Now()).(a := Pushed(old(Now()).a, i0))
    {
      ghost var s := Now();
      availRing := availRing[availIdx % NUM := i0];
      availIdx := Bump(availIdx);
      availN, availQ := availN + 1, availQ + [i0];
      assert Now() == s.(a := Ring(availRing, availIdx, takenIdx, availN, takenN, availQ));
    }

    ghost method Record(i0: nat, r: Req)
      requires |owner| == NUM && i0 < NUM && r.i1 < NUM && r.i2 < NUM
      modifies this`reqs, this`owner
      ensures var s := old(Now());
              Now() == s.(t := s.t.(owner := s.t.owner[i0 := i0][r.i1 := i0][r.i2 := i0]), reqs := s.reqs[i0 := r])
    {
      reqs, owner := reqs[i0 := r], owner[i0 := i0][r.i1 := i0][r.i2 := i0];
    }

    // The device reads the next entry of the available ring, if there is one.
    method DeviceTake() returns (ok: bool, h: nat)
      requires Valid()
      modifies this`takenIdx, this`takenN, this`availQ, this`inflight, this`reqs
      ensures Valid()
      ensures ok <==> old(availQ) != []
      ensures !ok ==> Now() == old(Now())
      ensures ok ==> h == old(availQ)[0] && h in old(reqs) && reqs == old(reqs)[h := old(reqs)[h].(phase := Taken)] && inflight == old(inflight) + {h}
    {
      ghost var s := Now();
      TakenOk(s);
      ok, h := takenIdx != availIdx, 0;
      if ok {
        h := availRing[takenIdx % NUM];
        takenIdx := Bump(takenIdx);
        takenN, availQ, inflight := takenN + 1, availQ[1..], inflight + {h};
        reqs := reqs[h := reqs[h].(phase := Taken)];
        assert Now() == s.(a := Popped(s.a), reqs := s.reqs[h := s.reqs[h].(phase := Taken)], inflight := s.inflight + {h});
      }
    }

    // The device carries out a chain it took, following the descriptors, and reports it.
    method DeviceComplete(h: nat)
      requires Valid() && h in inflight
      modifies this`status, this`data, this`store, this`usedRing, this`usedIdx, this`usedN, this`usedQ, this`inflight, this`reqs
      ensures Valid() && h in old(reqs) && reqs == old(reqs)[h := old(reqs)[h].(phase := Completed)]
      ensures old(reqs)[h].phase == Taken && usedQ == old(usedQ) + [h]
      ensures var r := old(reqs)[h];
              && data == (if r.write then old(data) else old(data)[r.b := Contents(old(store), r.sector)])
              && store == (if r.write then old(store)[r.sector := Contents(old(data), r.b)] else old(store))
    {
      ghost var s := Now();
      InFlight(s, h);
      ChainAt(s, h);
      Transfer(h, reqs[h]);
      Report(h, s);
    }

    // The used ring's new entry, once the status byte is written.
    method Report(h: nat, ghost s: Snap)
      requires Ok(s) && h in s.inflight && |s.status| == NUM && h < NUM && Now() == s.(status := s.status[h := 0])
      modifies this`usedRing, this`usedIdx, this`usedN, this`usedQ, this`inflight, this`reqs
      ensures Valid() && h in s.reqs && reqs == s.reqs[h := s.reqs[h].(phase := Completed)] && usedQ == s.u.q + [h]
    {
      CompletedOk(s, h);
      usedRing := usedRing[usedIdx % NUM := h];
      usedIdx := Bump(usedIdx);
      usedN, usedQ, inflight := usedN + 1, usedQ + [h], inflight - {h};
      reqs := reqs[h := reqs[h].(phase := Completed)];
      assert Now() == s.(u := Pushed(s.u, h), status := s.status[h := 0], reqs := s.reqs[h := s.reqs[h].(phase := Completed)], inflight := s.inflight - {h});
    }

    // What the device does with the chain at h: the block, and the status byte.
    method Transfer(h: nat, ghost r: Req)
      requires |desc| == |ops| == |status| == NUM && h < NUM && r.i1 < NUM && r.i2 < NUM
      requires desc[h] == Desc(OpOf(h), 16, r.i1, true, false) && desc[r.i1] == Desc(DataOf(r.b), 1024, r.i2, true, !r.write)
      requires desc[r.i2] == Desc(StatusOf(h), 1, 0, false, true) && ops[h] == Op(r.write, r.sector)
      modifies this`data, this`store, this`status
      ensures data == (if r.write then old(data) else old(data)[r.b := Contents(old(store), r.sector)])
      ensures store == (if r.write then old(store)[r.sector := Contents(old(data), r.b)] else old(store))
      ensures status == old(status)[h := 0]
    {
      var op := ops[desc[h].addr.i];
      var d1 := desc[desc[h].next];
      var d2 := desc[d1.next];
      if op.out {
        store := store[op.sector := Contents(data, d1.addr.b)];
      } else {
        data := data[d1.addr.b := Contents(store, op.sector)];
      }
      status := status[d2.addr.i := 0];
    }

    // One round of the interrupt's loop: the status is 0, so its panic cannot happen.
    method Notice()
      requires Valid() && seenIdx != usedIdx
      modifies this`waiting, this`seenIdx, this`seenN, this`usedQ, this`reqs
      ensures Valid()
      ensures old(usedQ) != [] && usedQ == old(usedQ)[1..] && old(usedQ)[0] in old(reqs)
      ensures var h := old(usedQ)[0];
              reqs == old(reqs)[h := old(reqs)[h].(phase := Seen)] && waiting == old(waiting) - {old(reqs)[h].b}
    {
      ghost var s := Now();
      SeenOk(s);
      var id := usedRing[seenIdx % NUM];
      assert status[id] == 0;
      var b := infoB[id];
      waiting := waiting - {b};
      seenIdx := Bump(seenIdx);
      seenN, usedQ := seenN + 1, usedQ[1..];
      reqs := reqs[id := reqs[id].(phase := Seen)];
      assert Now() == s.(u := Popped(s.u), waiting := s.waiting - {s.reqs[id].b}, reqs := s.reqs[id := s.reqs[id].(phase := Seen)]);
    }

    // One step of the device, if it can take it.
    method DeviceStep(e: Event)
      requires Valid()
      modifies this`takenIdx, this`takenN, this`availQ, this`status, this`data, this`store
      modifies this`usedRing, this`usedIdx, this`usedN, this`usedQ, this`inflight, this`reqs
      ensures Valid() && Advanced(old(reqs), reqs) && old(usedQ) <= usedQ
    {
      match e {
        case Takes =>
          if availQ != [] {
            QueuedFirst(Now());
          }
          var _, _ := DeviceTake();
        case Completes(h) =>
          if h in inflight {
            DeviceComplete(h);
          }
      }
    }

    // What the device does while the driver is between two instructions.
    method DeviceRuns(es: seq<Event>)
      requires Valid()
      modifies this`takenIdx, this`takenN, this`availQ, this`status, this`data, this`store
      modifies this`usedRing, this`usedIdx, this`usedN, this`usedQ, this`inflight, this`reqs
      ensures Valid() && Advanced(old(reqs), reqs) && old(usedQ) <= usedQ
      ensures es == [] ==> Now() == old(Now()) && data == old(data) && store == old(store)
    {
      var i := 0;
      while i < |es|
        invariant 0 <= i <= |es| && Valid() && Advanced(old(reqs), reqs) && old(usedQ) <= usedQ
        invariant i == 0 ==> Now() == old(Now()) && data == old(data) && store == old(store)
      {
        ghost var mid := reqs;
        DeviceStep(es[i]);
        AdvancedOn(old(reqs), mid, reqs);
        i := i + 1;
      }
    }

    /** virtio_disk_intr, with the device at work between the rounds of the loop: events[r] is what it
        does before the r-th look at the used ring. All requests completed by the last look are seen. */
    method Intr(events: seq<seq<Event>>)
      requires Valid()
      modifies this`waiting, this`seenIdx, this`seenN, this`takenIdx, this`takenN, this`availQ, this`status, this`data, this`store
      modifies this`usedRing, this`usedIdx, this`usedN, this`usedQ, this`inflight, this`reqs
      ensures Valid() && usedQ == [] && Advanced(old(reqs), reqs)
      ensures forall h :: h in reqs ==> reqs[h].phase != Completed
      ensures forall h :: h in reqs && old(reqs)[h].phase == Completed ==> reqs[h].phase == Seen
      ensures forall h :: h in reqs ==> (reqs[h].b in waiting <==> reqs[h].phase != Seen)
      ensures events == [] ==> forall h :: h in reqs && old(reqs)[h].phase != Completed ==> reqs[h] == old(reqs)[h]
      ensures events == [] && old(usedQ) == [] ==> Now() == old(Now())
    {
      var round := 0;
      DeviceRuns(if events == [] then [] else events[0]);
      SeenOk(Now());
      while seenIdx != usedIdx
        invariant Valid() && Advanced(old(reqs), reqs) && 0 <= round
        invariant seenIdx == usedIdx <==> usedQ == []
        invariant events == [] ==> OnlySeen(old(reqs), reqs)
        invariant events == [] && old(usedQ) == [] ==> Now() == old(Now())
        decreases if round < |events| then |events| - round else 0, |usedQ|
      {
        round := round + 1;
        NoticeThen(if round < |events| then events[round] else [], old(reqs));
        SeenOk(Now());
      }
      AllSeen(Now(), old(reqs));
    }

    // One round of the loop, and the device after it.
    method NoticeThen(es: seq<Event>, ghost was: map<int, Req>)
      requires Valid() && seenIdx != usedIdx && Advanced(was, reqs)
      modifies this`waiting, this`seenIdx, this`seenN, this`takenIdx, this`takenN, this`availQ, this`status, this`data, this`store
      modifies this`usedRing, this`usedIdx, this`usedN, this`usedQ, this`inflight, this`reqs
      ensures Valid() && Advanced(was, reqs) && old(usedQ) != []
      ensures es == [] ==> |usedQ| < |old(usedQ)|
      ensures es == [] && OnlySeen(was, old(reqs)) ==> OnlySeen(was, reqs)
    {
      ghost var before := reqs;
      SeenOk(Now());
      CompletedHeads(Now());
      Notice();
      ghost var mid := reqs;
      assert Advanced(before, mid);
      AdvancedOn(was, before, mid);
      DeviceRuns(es);
      AdvancedOn(was, mid, reqs);
    }

    // free_chain: follows the chain and frees each descriptor once.
    method FreeChain(h: nat, ghost i1: nat, ghost i2: nat)
      requires |free| == |desc| == NUM && h < NUM && i1 < NUM && i2 < NUM && h != i1 && h != i2 && i1 != i2
      requires !free[h] && !free[i1] && !free[i2]
      requires desc[h].more && desc[h].next == i1 && desc[i1].more && desc[i1].next == i2 && !desc[i2].more
      modifies this`free, this`desc
      ensures free == old(free)[h := true][i1 := true][i2 := true]
      ensures desc == old(desc)[h := ZERO][i1 := ZERO][i2 := ZERO]
    {
      ghost var c := 0;
      var i := h;
      while true
        invariant 0 <= c < 3 && i == (if c == 0 then h else if c == 1 then i1 else i2)
        invariant free == (if c == 0 then old(free) else if c == 1 then old(free)[h := true] else old(free)[h := true][i1 := true])
        invariant desc == (if c == 0 then old(desc) else if c == 1 then old(desc)[h := ZERO] else old(desc)[h := ZERO][i1 := ZERO])
        decreases 3 - c
      {
        var more, next := desc[i].more, desc[i].next;
        FreeDesc(i);
        if !more {
          return;
        }
        i := next;
        c := c + 1;
      }
    }

    // virtio_disk_rw after the interrupt has cleared b's flag.
    method Finish(h: nat)
      requires Valid() && h in reqs && reqs[h].phase == Seen
      modifies this`free, this`desc, this`infoB, this`reqs, this`owner
      ensures Valid() && reqs == old(reqs) - {h}
      ensures h < |old(free)| == NUM && old(reqs)[h].i1 < NUM && old(reqs)[h].i2 < NUM
      ensures free == old(free)[h := true][old(reqs)[h].i1 := true][old(reqs)[h].i2 := true]
    {
      ghost var s := Now();
      ChainAt(s, h);
      infoB := infoB[h := 0];
      FreeChain(h, reqs[h].i1, reqs[h].i2);
      Retire(h, s);
    }

    // The request is over once its descriptors are free again.
    ghost method Retire(h: nat, s: Snap)
      requires Ok(s) && h in s.reqs && s.reqs[h].phase == Seen && Sized(s.t) && h < NUM && s.reqs[h].i1 < NUM && s.reqs[h].i2 < NUM
      requires Now() == s.(t := Dropped(s.t, h, s.reqs[h]).(owner := s.t.owner))
      modifies this`reqs, this`owner
      ensures Valid() && reqs == s.reqs - {h}
    {
      FinishedOk(s, h);
      owner := owner[h := -1][reqs[h].i1 := -1][reqs[h].i2 := -1];
      reqs := reqs - {h};
      assert Now() == s.(t := Dropped(s.t, h, s.reqs[h]), reqs := s.reqs - {h});
    }
  }
}
