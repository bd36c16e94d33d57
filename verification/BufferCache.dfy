/** The buffer cache's circular doubly linked list and its replacement policy
    (kernel/bio.c). Buffers are 0..n-1 and the list head is n. */
module BufferCache {
  import opened Common

  datatype Buf = Buf(dev: nat, blockno: nat, valid: bool, refcnt: int)

  // The ring: the head, then the list, then the head again.
  ghost function At(n: nat, order: seq<nat>, i: nat): (b: nat)
    requires i <= |order| + 1
  {
    if i == 0 || i == |order| + 1 then n else order[i - 1]
  }

  // next and prev are inverse and visit the head and exactly `order`, each once.
  ghost predicate Linked(n: nat, next: seq<nat>, prev: seq<nat>, order: seq<nat>) {
    && |next| == |prev| == n + 1
    && Distinct(order)
    && (forall i :: 0 <= i < |order| ==> order[i] < n)
    && (forall i :: 0 <= i <= |order| ==> next[At(n, order, i)] == At(n, order, i + 1))
    && (forall i :: 0 <= i <= |order| ==> prev[At(n, order, i + 1)] == At(n, order, i))
  }

  ghost function Without(order: seq<nat>, k: nat): (r: seq<nat>)
    requires k < |order|
  {
    order[..k] + order[k + 1..]
  }

  /** brelse's two assignments take one buffer out of the ring. */
  lemma UnlinkOne(n: nat, next: seq<nat>, prev: seq<nat>, order: seq<nat>, k: nat)
    requires Linked(n, next, prev, order) && k < |order|
    ensures var b := order[k];
            && next[b] <= n && prev[b] <= n && next[b] != b && prev[b] != b
            && Linked(n, next[prev[b] := next[b]], prev[next[b] := prev[b]], Without(order, k))
  {
    var b := order[k];
    assert At(n, order, k + 1) == b;
    assert next[b] == At(n, order, k + 2) && prev[b] == At(n, order, k);
    var rest := Without(order, k);
    var next', prev' := next[prev[b] := next[b]], prev[next[b] := prev[b]];
    forall i | 0 <= i <= |rest|
      ensures next'[At(n, rest, i)] == At(n, rest, i + 1) && prev'[At(n, rest, i + 1)] == At(n, rest, i)
    {
      var j := if i <= k then i else i + 1;
      var j' := if i + 1 <= k then i + 1 else i + 2;
      assert At(n, rest, i) == At(n, order, j) && At(n, rest, i + 1) == At(n, order, j');
      assert next[At(n, order, j)] == At(n, order, j + 1);
      assert prev[At(n, order, j' - 1 + 1)] == At(n, order, j' - 1);
    }
  }

  /** binit's and brelse's four assignments put a buffer right after the head. */
  lemma PushFront(n: nat, next: seq<nat>, prev: seq<nat>, order: seq<nat>, b: nat)
    requires Linked(n, next, prev, order) && b < n && b !in order
    ensures next[n] <= n
    ensures Linked(n, next[b := next[n]][n := b], prev[b := n][next[n] := b], [b] + order)
  {
    assert next[At(n, order, 0)] == At(n, order, 0 + 1);
    assert prev[At(n, order, 0 + 1)] == n;
    var more := [b] + order;
    var next', prev' := next[b := next[n]][n := b], prev[b := n][next[n] := b];
    forall i | 0 <= i <= |more|
      ensures next'[At(n, more, i)] == At(n, more, i + 1) && prev'[At(n, more, i + 1)] == At(n, more, i)
    {
      if i >= 1 {
        assert At(n, more, i + 1) == At(n, order, i);
        assert i >= 2 ==> At(n, more, i) == At(n, order, i - 1);
        assert next[At(n, order, i - 1)] == At(n, order, i - 1 + 1);
        assert prev[At(n, order, i - 1 + 1)] == At(n, order, i - 1);
      }
    }
  }

  /** brelse's six assignments together. */
  lemma Relink(n: nat, next: seq<nat>, prev: seq<nat>, order: seq<nat>, k: nat)
    requires Linked(n, next, prev, order) && k < |order|
    ensures var b := order[k];
            && next[b] <= n && prev[b] <= n && next[b] != b && prev[b] != b
            && var next1, prev1 := next[prev[b] := next[b]], prev[next[b] := prev[b]];
            && next1[n] <= n
            && Linked(n, next1[b := next1[n]][n := b], prev1[b := n][next1[n] := b], [b] + Without(order, k))
  {
    var b := order[k];
    UnlinkOne(n, next, prev, order, k);
    PushFront(n, next[prev[b] := next[b]], prev[next[b] := prev[b]], Without(order, k), b);
  }

  // Every buffer is on the list, the most recently moved first.
  ghost predicate Recency(n: nat, order: seq<nat>, stamp: seq<int>, clock: int) {
    && |order| == n == |stamp|
    && (forall i :: 0 <= i < n ==> order[i] < n)
    && (forall b: nat :: b < n ==> b in order)
    && (forall b :: 0 <= b < n ==> stamp[b] < clock)
    && (forall i, j :: 0 <= i < j < n ==> stamp[order[i]] > stamp[order[j]])
  }

  lemma MoveRecency(n: nat, order: seq<nat>, stamp: seq<int>, clock: int, k: nat)
    requires Recency(n, order, stamp, clock) && Distinct(order) && k < n
    ensures Recency(n, [order[k]] + Without(order, k), stamp[order[k] := clock], clock + 1)
  {
    MoveComplete(n, order, k);
    MoveOrdered(n, order, stamp, k, clock);
    forall j: nat | j < n ensures ([order[k]] + Without(order, k))[j] < n {
      MovedFrom(order, k, j);
    }
  }

  class BCache {
    const n: nat           // NBUF
    var next: seq<nat>
    var prev: seq<nat>
    var buf: seq<Buf>
    ghost var order: seq<nat>   // the list from head.next to head.prev
    ghost var stamp: seq<int>   // when each buffer was last moved to the front
    ghost var clock: int

    ghost predicate Valid()
      reads this
    {
      && Linked(n, next, prev, order)
      && Recency(n, order, stamp, clock)
      && |buf| == n && UniqueKeys(buf)
    }

    // At most one buffer carries any key with nonzero dev.
    static ghost predicate UniqueKeys(buf: seq<Buf>) {
      forall i, j :: 0 <= i < j < |buf| && buf[i].dev != 0 ==>
        buf[i].dev != buf[j].dev || buf[i].blockno != buf[j].blockno
    }

    constructor (nbuf: nat)
      ensures Valid() && n == nbuf
      ensures forall b :: 0 <= b < n ==> buf[b] == Buf(0, 0, false, 0)
    {
      n := nbuf;
      next, prev := seq(nbuf + 1, _ => nbuf), seq(nbuf + 1, _ => nbuf);
      buf, stamp := seq(nbuf, _ => Buf(0, 0, false, 0)), seq(nbuf, i => i);
      order, clock := [], nbuf;
      new;
      var b := 0;
      while b < n
        invariant 0 <= b <= n == clock && |order| == b
        invariant buf == seq(n, _ => Buf(0, 0, false, 0)) && stamp == seq(n, i => i)
        invariant Linked(n, next, prev, order)
        invariant forall i :: 0 <= i < b ==> order[i] == b - 1 - i
      {
        PushFront(n, next, prev, order, b);
        next := next[b := next[n]];
        prev := prev[b := n];
        prev := prev[next[n] := b];
        next := next[n := b];
        order := [b] + order;
        b := b + 1;
      }
      forall c: nat | c < n ensures c in order {
        assert order[n - 1 - c] == c;
      }
    }

    /** bget: a cached block gets one more reference; otherwise the unused buffer that
        has gone longest without moving to the front is taken over, and only when every
        buffer is in use does it panic (result n). */
    method Bget(dev: nat, blockno: nat) returns (b: nat)
      requires Valid()
      modifies this`buf
      ensures Valid()
      ensures b <= n
      ensures forall i :: 0 <= i < n && i != b ==> buf[i] == old(buf)[i]
      ensures b == n <==> (forall i :: 0 <= i < n ==> !HasKey(old(buf)[i], dev, blockno) && old(buf)[i].refcnt != 0)
      ensures b < n && HasKey(old(buf)[b], dev, blockno) ==>
                buf[b] == old(buf)[b].(refcnt := old(buf)[b].refcnt + 1)
      ensures b < n && !HasKey(old(buf)[b], dev, blockno) ==>
                && (forall i :: 0 <= i < n ==> !HasKey(old(buf)[i], dev, blockno))
                && old(buf)[b].refcnt == 0 && buf[b] == Buf(dev, blockno, false, 1)
                && forall i :: 0 <= i < n && i != b && old(buf)[i].refcnt == 0 ==> stamp[b] < stamp[i]
    {
      b := FindCached(dev, blockno);
      if b != n {
        buf := buf[b := buf[b].(refcnt := buf[b].refcnt + 1)];
        return;
      }
      b := FindUnused();
      if b != n {
        buf := buf[b := Buf(dev, blockno, false, 1)];
      }
    }

    // bget's first loop, from the most recently used end.
    method FindCached(dev: nat, blockno: nat) returns (b: nat)
      requires Valid()
      ensures b <= n
      ensures b < n ==> HasKey(buf[b], dev, blockno)
      ensures b == n ==> forall i :: 0 <= i < n ==> !HasKey(buf[i], dev, blockno)
    {
      ghost var k := 0;
      assert At(n, order, 0) == n;
      b := next[n];
      while b != n
        invariant 0 <= k <= n && b == At(n, order, k + 1)
        invariant forall i :: 0 <= i < k ==> !HasKey(buf[order[i]], dev, blockno)
        decreases n - k
      {
        if HasKey(buf[b], dev, blockno) {
          return;
        }
        b := next[b];
        k := k + 1;
      }
      forall i: nat | i < n ensures !HasKey(buf[i], dev, blockno) {
        assert i in order;
        var j :| 0 <= j < n && order[j] == i;
      }
    }

    // bget's second loop, from the least recently used end.
    method FindUnused() returns (b: nat)
      requires Valid()
      ensures b <= n
      ensures b < n ==> buf[b].refcnt == 0
      ensures b < n ==> forall i :: 0 <= i < n && i != b && buf[i].refcnt == 0 ==> stamp[b] < stamp[i]
      ensures b == n ==> forall i :: 0 <= i < n ==> buf[i].refcnt != 0
    {
      ghost var k := n;
      assert prev[At(n, order, k + 1)] == At(n, order, k);
      b := prev[n];
      while b != n
        invariant 0 <= k <= n && b == At(n, order, k)
        invariant forall i :: k <= i < n ==> buf[order[i]].refcnt != 0
        decreases k
      {
        if buf[b].refcnt == 0 {
          break;
        }
        assert prev[At(n, order, k - 1 + 1)] == At(n, order, k - 1);
        b := prev[b];
        k := k - 1;
      }
      forall i: nat | i < n && i != b && buf[i].refcnt == 0 ensures b < n && stamp[b] < stamp[i] {
        assert i in order;
        var j :| 0 <= j < n && order[j] == i;
        assert j < k;
      }
    }

    static predicate HasKey(x: Buf, dev: nat, blockno: nat) {
      x.dev == dev && x.blockno == blockno
    }

    /** brelse: the last user's release moves the buffer to the front, as the most
        recently used; every other buffer keeps its place. */
    method Brelse(b: nat)
      requires Valid() && b < n && buf[b].refcnt >= 1
      modifies this
      ensures Valid()
      ensures buf == old(buf)[b := old(buf)[b].(refcnt := old(buf)[b].refcnt - 1)]
      ensures buf[b].refcnt > 0 ==> order == old(order) && stamp == old(stamp)
      ensures buf[b].refcnt == 0 ==>
                && stamp == old(stamp)[b := old(clock)]
                && exists k :: 0 <= k < n && old(order)[k] == b && order == [b] + Without(old(order), k)
    {
      buf := buf[b := buf[b].(refcnt := buf[b].refcnt - 1)];
      if buf[b].refcnt == 0 {
        MoveToFront(b);
      }
    }

    // Unlink b, then link it in after the head.
    method MoveToFront(b: nat)
      requires Valid() && b < n
      modifies this`next, this`prev, this`order, this`stamp, this`clock
      ensures Valid() && stamp == old(stamp)[b := old(clock)]
      ensures exists k :: 0 <= k < n && old(order)[k] == b && order == [b] + Without(old(order), k)
    {
      assert b in order;
      ghost var k :| 0 <= k < n && order[k] == b;
      ghost var rest := Without(order, k);
      Rewire(b, k);
      MoveRecency(n, order, stamp, clock, k);
      order, stamp, clock := [b] + rest, stamp[b := clock], clock + 1;
    }

    // The six assignments of brelse.
    method Rewire(b: nat, ghost k: nat)
      requires Linked(n, next, prev, order) && k < |order| && order[k] == b
      modifies this`next, this`prev
      ensures Linked(n, next, prev, [b] + Without(order, k))
    {
      Relink(n, next, prev, order, k);
      prev := prev[next[b] := prev[b]];
      next := next[prev[b] := next[b]];
      next := next[b := next[n]];
      prev := prev[b := n];
      prev := prev[next[n] := b];
      next := next[n := b];
    }

    method Bpin(b: nat)
      requires Valid() && b < n
      modifies this`buf
      ensures Valid() && buf == old(buf)[b := old(buf)[b].(refcnt := old(buf)[b].refcnt + 1)]
    {
      buf := buf[b := buf[b].(refcnt := buf[b].refcnt + 1)];
    }

    method Bunpin(b: nat)
      requires Valid() && b < n && buf[b].refcnt >= 1
      modifies this`buf
      ensures Valid() && buf == old(buf)[b := old(buf)[b].(refcnt := old(buf)[b].refcnt - 1)]
    {
      buf := buf[b := buf[b].(refcnt := buf[b].refcnt - 1)];
    }
  }

  // Where each place of the reordered list comes from.
  lemma MovedFrom(order: seq<nat>, k: nat, j: nat)
    requires k < |order| && j < |order|
    ensures var order' := [order[k]] + Without(order, k);
            && |order'| == |order|
            && order'[j] == (if j == 0 then order[k] else if j <= k then order[j - 1] else order[j])
  {
  }

  /** Moving one buffer to the front keeps the list complete. */
  lemma MoveComplete(n: nat, order: seq<nat>, k: nat)
    requires |order| == n && k < n && forall b: nat :: b < n ==> b in order
    ensures forall b: nat :: b < n ==> b in [order[k]] + Without(order, k)
  {
    var order' := [order[k]] + Without(order, k);
    forall b: nat | b < n ensures b in order' {
      assert b in order;
      var i :| 0 <= i < n && order[i] == b;
      MovedFrom(order, k, if i < k then i + 1 else if i == k then 0 else i);
    }
  }

  /** With a new stamp on the moved buffer, the list stays ordered by stamp. */
  lemma MoveOrdered(n: nat, order: seq<nat>, stamp: seq<int>, k: nat, clock: int)
    requires |order| == |stamp| == n && k < n && Distinct(order)
    requires forall i :: 0 <= i < n ==> order[i] < n
    requires forall b :: 0 <= b < n ==> stamp[b] < clock
    requires forall i, j :: 0 <= i < j < n ==> stamp[order[i]] > stamp[order[j]]
    ensures var order', stamp' := [order[k]] + Without(order, k), stamp[order[k] := clock];
            forall i, j :: 0 <= i < j < n ==> stamp'[order'[i]] > stamp'[order'[j]]
  {
    var order', stamp' := [order[k]] + Without(order, k), stamp[order[k] := clock];
    forall i, j | 0 <= i < j < n ensures stamp'[order'[i]] > stamp'[order'[j]] {
      MovedFrom(order, k, i);
      MovedFrom(order, k, j);
    }
  }
}
