/** The Kernighan and Ritchie allocator (user/umalloc.c). Addresses are in units of
    sizeof(Header); a header sits at the start of each block. */
module KrMalloc {
  import opened Common

  const UNIT: nat := 16          // sizeof(Header)
  const MINCORE: nat := 4096

  // The node after fl[i] on the circular list.
  ghost function After(fl: seq<int>, i: int): (p: int)
    requires 0 <= i < |fl|
  {
    if i + 1 < |fl| then fl[i + 1] else fl[0]
  }

  ghost predicate Ascending(fl: seq<int>) {
    forall i, j :: 0 <= i < j < |fl| ==> fl[i] < fl[j]
  }

  // Following ptr from base visits exactly fl, in address order, with one wrap.
  ghost predicate Ring(ptr: map<int, int>, fl: seq<int>) {
    forall i {:trigger After(fl, i)} :: 0 <= i < |fl| ==> fl[i] in ptr && ptr[fl[i]] == After(fl, i)
  }

  // Free blocks: fl[0] is base, of size 0; the others do not touch each other.
  ghost predicate Coalesced(size: map<int, int>, fl: seq<int>) {
    && fl != []
    && (forall i :: 0 <= i < |fl| ==> fl[i] in size)
    && size[fl[0]] == 0
    && (forall i :: 1 <= i < |fl| ==> size[fl[i]] >= 1)
    && (forall i, j :: 1 <= i < j < |fl| ==> fl[i] + size[fl[i]] < fl[j])
  }

  ghost predicate IsBlock(fl: seq<int>, live: map<int, int>, h: int) {
    h in live || (exists i :: 1 <= i < |fl| && fl[i] == h)
  }

  // Unit u is one of those of the block at h.
  ghost predicate Holds(size: map<int, int>, h: int, u: int) {
    h in size && h <= u < h + size[h]
  }

  // Every unit obtained from sbrk lies in exactly one block, free or live, and blocks
  // hold no other units.
  ghost predicate Tiled(size: map<int, int>, fl: seq<int>, live: map<int, int>, owner: map<int, int>) {
    && (forall h {:trigger h in live} :: h in live ==> h in size && size[h] == live[h] >= 1 && h !in fl)
    && (forall h, u {:trigger Holds(size, h, u)} ::
        IsBlock(fl, live, h) && Holds(size, h, u) ==> u in owner && owner[u] == h)
    && (forall u {:trigger u in owner} :: u in owner ==>
        IsBlock(fl, live, owner[u]) && Holds(size, owner[u], u))
  }

  lemma RingAt(ptr: map<int, int>, fl: seq<int>, i: int)
    requires Ring(ptr, fl) && 0 <= i < |fl|
    ensures fl[i] in ptr && ptr[fl[i]] == After(fl, i)
  {
  }

  // bp belongs right after fl[t].
  ghost predicate Between(fl: seq<int>, t: int, bp: int) {
    0 <= t < |fl| && fl[t] < bp && (t + 1 < |fl| ==> bp < fl[t + 1])
  }

  // Does the block at bp touch the free block after it, or the one before it?
  ghost predicate JoinsUp(size: map<int, int>, fl: seq<int>, t: int, bp: int)
    requires 0 <= t < |fl| && bp in size
  {
    t + 1 < |fl| && bp + size[bp] == fl[t + 1]
  }

  ghost predicate JoinsDown(size: map<int, int>, fl: seq<int>, t: int, bp: int)
    requires 0 <= t < |fl| && fl[t] in size
  {
    fl[t] + size[fl[t]] == bp
  }

  // The free list after the block at bp has been put back.
  ghost function FreedList(fl: seq<int>, t: int, bp: int, up: bool, down: bool): (r: seq<int>)
    requires 0 <= t < |fl| && (up ==> t + 1 < |fl|)
  {
    fl[..t + 1] + (if down then [] else [bp]) + (if up then fl[t + 2..] else fl[t + 1..])
  }

  // Where each place of the new list comes from.
  lemma FreedAt(fl: seq<int>, t: int, bp: int, up: bool, down: bool, i: int)
    requires 0 <= t < |fl| && (up ==> t + 1 < |fl|)
    requires 0 <= i < |FreedList(fl, t, bp, up, down)|
    ensures var r := FreedList(fl, t, bp, up, down);
            var skip := (if up then 1 else 0) - (if down then 0 else 1);
            && |r| == |fl| - skip
            && (i <= t ==> r[i] == fl[i])
            && (i == t + 1 && !down ==> r[i] == bp)
            && (i > t + (if down then 0 else 1) ==> 0 <= i + skip < |fl| && r[i] == fl[i + skip])
  {
  }

  /** free's relinking, in each of its four cases, closes the ring again. */
  lemma FreedRing(ptr: map<int, int>, fl: seq<int>, t: int, bp: int, up: bool, down: bool, ptr': map<int, int>)
    requires Ring(ptr, fl) && Ascending(fl) && Between(fl, t, bp) && (up ==> t + 1 < |fl|)
    requires fl[t] in ptr && (up ==> ptr[fl[t]] in ptr)
    requires var nx := if up then ptr[ptr[fl[t]]] else ptr[fl[t]];
             ptr' == if down then ptr[bp := nx][fl[t] := nx] else ptr[bp := nx][fl[t] := bp]
    ensures Ring(ptr', FreedList(fl, t, bp, up, down))
  {
    var r := FreedList(fl, t, bp, up, down);
    forall i | 0 <= i < |r| ensures r[i] in ptr' && ptr'[r[i]] == After(r, i) {
      FreedLink(ptr, fl, t, bp, up, down, ptr', i);
    }
  }

  lemma FreedLink(ptr: map<int, int>, fl: seq<int>, t: int, bp: int, up: bool, down: bool, ptr': map<int, int>, i: int)
    requires Ring(ptr, fl) && Ascending(fl) && Between(fl, t, bp) && (up ==> t + 1 < |fl|)
    requires fl[t] in ptr && (up ==> ptr[fl[t]] in ptr)
    requires var nx := if up then ptr[ptr[fl[t]]] else ptr[fl[t]];
             ptr' == if down then ptr[bp := nx][fl[t] := nx] else ptr[bp := nx][fl[t] := bp]
    requires 0 <= i < |FreedList(fl, t, bp, up, down)|
    ensures var r := FreedList(fl, t, bp, up, down);
            r[i] in ptr' && ptr'[r[i]] == After(r, i)
  {
    var r := FreedList(fl, t, bp, up, down);
    var skip := (if up then 1 else 0) - (if down then 0 else 1);
    var first := t + 1 + if up then 1 else 0;
    var nx := if up then ptr[ptr[fl[t]]] else ptr[fl[t]];
    assert ptr[fl[t]] == After(fl, t);
    assert nx == After(fl, first - 1);
    FreedAt(fl, t, bp, up, down, i);
    FreedAt(fl, t, bp, up, down, 0);
    if i + 1 < |r| {
      FreedAt(fl, t, bp, up, down, i + 1);
    }
    if i < t {
      RingAt(ptr, fl, i);
      assert fl[i] != fl[t] && fl[i] != bp;
    } else if i > t + (if down then 0 else 1) {
      RingAt(ptr, fl, i + skip);
      assert fl[i + skip] != fl[t] && fl[i + skip] != bp;
    }
  }

  lemma FreedAscending(fl: seq<int>, t: int, bp: int, up: bool, down: bool)
    requires Ascending(fl) && Between(fl, t, bp) && (up ==> t + 1 < |fl|)
    ensures Ascending(FreedList(fl, t, bp, up, down))
  {
    var r := FreedList(fl, t, bp, up, down);
    forall i, j | 0 <= i < j < |r| ensures r[i] < r[j] {
      FreedAt(fl, t, bp, up, down, i);
      FreedAt(fl, t, bp, up, down, j);
    }
  }

  // A live block lies strictly between its free neighbours.
  lemma Neighbours(size: map<int, int>, fl: seq<int>, live: map<int, int>, owner: map<int, int>, t: int, bp: int)
    requires Coalesced(size, fl) && Ascending(fl) && Tiled(size, fl, live, owner) && bp in live && Between(fl, t, bp)
    ensures fl[t] + size[fl[t]] <= bp
    ensures t + 1 < |fl| ==> bp + size[bp] <= fl[t + 1]
  {
    assert IsBlock(fl, live, bp);
    BlockUnits(size, fl, live, owner, bp, bp);
    if t >= 1 {
      assert IsBlock(fl, live, fl[t]);
      BlockUnits(size, fl, live, owner, fl[t], bp);
    }
    if t + 1 < |fl| {
      assert IsBlock(fl, live, fl[t + 1]);
      BlockUnits(size, fl, live, owner, fl[t + 1], fl[t + 1]);
      BlockUnits(size, fl, live, owner, bp, fl[t + 1]);
    }
  }

  ghost function FreedSize(size: map<int, int>, fl: seq<int>, t: int, bp: int): (r: map<int, int>)
    requires 0 <= t < |fl| && bp in size && fl[t] in size && (t + 1 < |fl| ==> fl[t + 1] in size)
  {
    var total := size[bp] + if JoinsUp(size, fl, t, bp) then size[fl[t + 1]] else 0;
    if JoinsDown(size, fl, t, bp) then size[bp := total][fl[t] := size[fl[t]] + total] else size[bp := total]
  }

  /** Merging with both neighbours leaves no two free blocks touching. */
  lemma FreedCoalesced(size: map<int, int>, fl: seq<int>, live: map<int, int>, owner: map<int, int>, t: int, bp: int)
    requires Coalesced(size, fl) && Ascending(fl) && Tiled(size, fl, live, owner) && bp in live && Between(fl, t, bp)
    ensures var up, down := JoinsUp(size, fl, t, bp), JoinsDown(size, fl, t, bp);
            Coalesced(FreedSize(size, fl, t, bp), FreedList(fl, t, bp, up, down))
  {
    Neighbours(size, fl, live, owner, t, bp);
    var up, down := JoinsUp(size, fl, t, bp), JoinsDown(size, fl, t, bp);
    var r, size' := FreedList(fl, t, bp, up, down), FreedSize(size, fl, t, bp);
    FreedAt(fl, t, bp, up, down, 0);
    forall i | 1 <= i < |r| ensures r[i] in size' && size'[r[i]] >= 1 {
      FreedAt(fl, t, bp, up, down, i);
    }
    forall i, j | 1 <= i < j < |r| ensures r[i] + size'[r[i]] < r[j] {
      FreedAt(fl, t, bp, up, down, i);
      FreedAt(fl, t, bp, up, down, j);
    }
  }

  ghost function FreedOwner(owner: map<int, int>, size: map<int, int>, fl: seq<int>, t: int, bp: int): (r: map<int, int>)
    requires 0 <= t < |fl| && bp in size && fl[t] in size
  {
    var into := if JoinsDown(size, fl, t, bp) then fl[t] else bp;
    map u | u in owner ::
      if owner[u] == bp || (JoinsUp(size, fl, t, bp) && owner[u] == fl[t + 1]) then into else owner[u]
  }

  // The block whose units those of bp become.
  ghost function Into(size: map<int, int>, fl: seq<int>, t: int, bp: int): (h: int)
    requires 0 <= t < |fl| && bp in size && fl[t] in size
  {
    if JoinsDown(size, fl, t, bp) then fl[t] else bp
  }

  lemma FreedMembers(fl: seq<int>, t: int, bp: int, up: bool, down: bool, h: int)
    requires Ascending(fl) && Between(fl, t, bp) && (up ==> t + 1 < |fl|)
    ensures var r := FreedList(fl, t, bp, up, down);
            h in r <==> (h in fl && !(up && h == fl[t + 1])) || (h == bp && !down)
  {
    var r := FreedList(fl, t, bp, up, down);
    var rest := if up then fl[t + 2..] else fl[t + 1..];
    assert fl == fl[..t + 1] + fl[t + 1..];
    assert up ==> fl[t + 1..] == [fl[t + 1]] + fl[t + 2..];
    assert h in r <==> h in fl[..t + 1] || (h == bp && !down) || h in rest;
    assert h in fl <==> h in fl[..t + 1] || h in fl[t + 1..];
    if up && h == fl[t + 1] {
      assert h !in fl[..t + 1] && h !in fl[t + 2..] && h != bp;
    }
  }

  // The blocks after free: those not absorbed.
  lemma FreedBlocks(size: map<int, int>, fl: seq<int>, live: map<int, int>, owner: map<int, int>, t: int, bp: int, h: int)
    requires Coalesced(size, fl) && Ascending(fl) && Tiled(size, fl, live, owner) && bp in live && Between(fl, t, bp)
    ensures var up, down := JoinsUp(size, fl, t, bp), JoinsDown(size, fl, t, bp);
            var r := FreedList(fl, t, bp, up, down);
            IsBlock(r, live - {bp}, h) <==>
              h == Into(size, fl, t, bp) || (IsBlock(fl, live, h) && h != bp && !(up && h == fl[t + 1]))
  {
    var up, down := JoinsUp(size, fl, t, bp), JoinsDown(size, fl, t, bp);
    var r := FreedList(fl, t, bp, up, down);
    FreedMembers(fl, t, bp, up, down, h);
    FreedAscending(fl, t, bp, up, down);
    assert r[0] == fl[0];
    assert fl[0] <= fl[t] < bp;
    Heads(r, live - {bp}, h);
    Heads(fl, live, h);
    assert down ==> t >= 1 && fl[t] in fl;
    assert up ==> fl[t + 1] in fl;
  }

  // A free block other than base.
  lemma Heads(fl: seq<int>, live: map<int, int>, h: int)
    requires fl != [] && Ascending(fl)
    ensures IsBlock(fl, live, h) <==> h in live || (h in fl && h != fl[0])
  {
  }

  // Units after free belong to the right blocks.
  lemma FreedUnits(size: map<int, int>, fl: seq<int>, live: map<int, int>, owner: map<int, int>, t: int, bp: int, h: int, u: int)
    requires Coalesced(size, fl) && Ascending(fl) && Tiled(size, fl, live, owner) && bp in live && Between(fl, t, bp)
    requires var up, down := JoinsUp(size, fl, t, bp), JoinsDown(size, fl, t, bp);
             IsBlock(FreedList(fl, t, bp, up, down), live - {bp}, h)
    ensures var size', owner' := FreedSize(size, fl, t, bp), FreedOwner(owner, size, fl, t, bp);
            h in size' && (Holds(size', h, u) <==> u in owner' && owner'[u] == h)
  {
    var up, down := JoinsUp(size, fl, t, bp), JoinsDown(size, fl, t, bp);
    FreedBlocks(size, fl, live, owner, t, bp, h);
    Neighbours(size, fl, live, owner, t, bp);
    BlockUnits(size, fl, live, owner, bp, u);
    assert IsBlock(fl, live, bp);
    if up {
      assert IsBlock(fl, live, fl[t + 1]);
      BlockUnits(size, fl, live, owner, fl[t + 1], u);
    }
    if down {
      assert t >= 1 && IsBlock(fl, live, fl[t]);
      BlockUnits(size, fl, live, owner, fl[t], u);
    }
    if IsBlock(fl, live, h) {
      BlockUnits(size, fl, live, owner, h, u);
    }
  }

  lemma BlockUnits(size: map<int, int>, fl: seq<int>, live: map<int, int>, owner: map<int, int>, h: int, u: int)
    requires Coalesced(size, fl) && Tiled(size, fl, live, owner) && IsBlock(fl, live, h)
    ensures h in size && (Holds(size, h, u) <==> u in owner && owner[u] == h)
  {
  }

  lemma FreedUnitIn(size: map<int, int>, fl: seq<int>, live: map<int, int>, owner: map<int, int>, t: int, bp: int, u: int)
    requires Coalesced(size, fl) && Ascending(fl) && Tiled(size, fl, live, owner) && bp in live && Between(fl, t, bp)
    requires u in owner
    ensures var up, down := JoinsUp(size, fl, t, bp), JoinsDown(size, fl, t, bp);
            var size', h := FreedSize(size, fl, t, bp), FreedOwner(owner, size, fl, t, bp)[u];
            IsBlock(FreedList(fl, t, bp, up, down), live - {bp}, h) && Holds(size', h, u)
  {
    var h := FreedOwner(owner, size, fl, t, bp)[u];
    assert IsBlock(fl, live, owner[u]);
    FreedBlocks(size, fl, live, owner, t, bp, h);
    FreedUnits(size, fl, live, owner, t, bp, h, u);
  }

  lemma FreedLive(size: map<int, int>, fl: seq<int>, live: map<int, int>, owner: map<int, int>, t: int, bp: int, h: int)
    requires Coalesced(size, fl) && Ascending(fl) && Tiled(size, fl, live, owner) && bp in live && Between(fl, t, bp)
    requires h in live && h != bp
    ensures var up, down := JoinsUp(size, fl, t, bp), JoinsDown(size, fl, t, bp);
            var size' := FreedSize(size, fl, t, bp);
            h in size' && size'[h] == live[h] >= 1 && h !in FreedList(fl, t, bp, up, down)
  {
    FreedMembers(fl, t, bp, JoinsUp(size, fl, t, bp), JoinsDown(size, fl, t, bp), h);
  }

  /** Freeing keeps the heap tiled: the same units, in the same or merged blocks. */
  lemma FreedTiled(size: map<int, int>, fl: seq<int>, live: map<int, int>, owner: map<int, int>, t: int, bp: int)
    requires Coalesced(size, fl) && Ascending(fl) && Tiled(size, fl, live, owner) && bp in live && Between(fl, t, bp)
    ensures var up, down := JoinsUp(size, fl, t, bp), JoinsDown(size, fl, t, bp);
            Tiled(FreedSize(size, fl, t, bp), FreedList(fl, t, bp, up, down), live - {bp}, FreedOwner(owner, size, fl, t, bp))
  {
    var up, down := JoinsUp(size, fl, t, bp), JoinsDown(size, fl, t, bp);
    var size', owner' := FreedSize(size, fl, t, bp), FreedOwner(owner, size, fl, t, bp);
    var r, live' := FreedList(fl, t, bp, up, down), live - {bp};
    forall h | h in live' ensures h in size' && size'[h] == live'[h] >= 1 && h !in r {
      FreedLive(size, fl, live, owner, t, bp, h);
    }
    forall h, u | IsBlock(r, live', h) && Holds(size', h, u) ensures u in owner' && owner'[u] == h {
      FreedUnits(size, fl, live, owner, t, bp, h, u);
    }
    forall u | u in owner' ensures IsBlock(r, live', owner'[u]) && Holds(size', owner'[u], u) {
      FreedUnitIn(size, fl, live, owner, t, bp, u);
    }
  }

  // The list without fl[k].
  ghost function Without(fl: seq<int>, k: int): (r: seq<int>)
    requires 0 <= k < |fl|
  {
    fl[..k] + fl[k + 1..]
  }

  lemma WithoutAt(fl: seq<int>, k: int, i: int)
    requires 0 <= k < |fl| && 0 <= i < |fl| - 1
    ensures |Without(fl, k)| == |fl| - 1 && Without(fl, k)[i] == fl[if i < k then i else i + 1]
  {
  }

  /** malloc's exact fit: unlinking one node closes the ring again. */
  lemma TakenRing(ptr: map<int, int>, fl: seq<int>, k: int)
    requires Ring(ptr, fl) && Ascending(fl) && 1 <= k < |fl| && fl[k] in ptr
    ensures Ring(ptr[fl[k - 1] := ptr[fl[k]]], Without(fl, k)) && Ascending(Without(fl, k))
  {
    var r, ptr' := Without(fl, k), ptr[fl[k - 1] := ptr[fl[k]]];
    forall i | 0 <= i < |r| ensures r[i] in ptr' && ptr'[r[i]] == After(r, i) {
      WithoutAt(fl, k, i);
      WithoutAt(fl, k, 0);
      if i + 1 < |r| {
        WithoutAt(fl, k, i + 1);
      }
      RingAt(ptr, fl, if i < k then i else i + 1);
      RingAt(ptr, fl, k);
    }
    forall i, j | 0 <= i < j < |r| ensures r[i] < r[j] {
      WithoutAt(fl, k, i);
      WithoutAt(fl, k, j);
    }
  }

  /** A block taken whole off the free list: its units are now the caller's. */
  lemma TakenTiled(size: map<int, int>, fl: seq<int>, live: map<int, int>, owner: map<int, int>, k: int)
    requires Coalesced(size, fl) && Ascending(fl) && Tiled(size, fl, live, owner) && 1 <= k < |fl|
    ensures Coalesced(size, Without(fl, k))
    ensures Tiled(size, Without(fl, k), live[fl[k] := size[fl[k]]], owner)
  {
    var r, live' := Without(fl, k), live[fl[k] := size[fl[k]]];
    forall i | 0 <= i < |r| ensures r[i] == fl[if i < k then i else i + 1] {
      WithoutAt(fl, k, i);
    }
    assert Ascending(r);
    forall h ensures h in r <==> h in fl && h != fl[k] {
      assert fl == fl[..k] + [fl[k]] + fl[k + 1..];
      assert h in fl <==> h in fl[..k] || h == fl[k] || h in fl[k + 1..];
    }
    forall h ensures IsBlock(r, live', h) <==> IsBlock(fl, live, h) {
      Heads(r, live', h);
      Heads(fl, live, h);
    }
  }

  ghost function SplitOwner(owner: map<int, int>, h: int, n: int): (r: map<int, int>) {
    map u | u in owner :: if h <= u < h + n then h else owner[u]
  }

  lemma SplitFresh(size: map<int, int>, fl: seq<int>, live: map<int, int>, owner: map<int, int>, k: int, n: int)
    requires Coalesced(size, fl) && Ascending(fl) && Tiled(size, fl, live, owner)
    requires 1 <= k < |fl| && 1 <= n < size[fl[k]]
    ensures fl[k] + size[fl[k]] - n !in live && fl[k] + size[fl[k]] - n !in fl
  {
    var h := fl[k] + size[fl[k]] - n;
    BlockUnits(size, fl, live, owner, fl[k], h) by {
      assert IsBlock(fl, live, fl[k]);
    }
    Heads(fl, live, h);
    if IsBlock(fl, live, h) {
      BlockUnits(size, fl, live, owner, h, h);
    }
  }

  lemma SplitCoalesced(size: map<int, int>, fl: seq<int>, k: int, n: int)
    requires Coalesced(size, fl) && Ascending(fl)
    requires 1 <= k < |fl| && 1 <= n < size[fl[k]] && fl[k] + size[fl[k]] - n !in fl
    ensures Coalesced(size[fl[k] := size[fl[k]] - n][fl[k] + size[fl[k]] - n := n], fl)
  {
    var size' := size[fl[k] := size[fl[k]] - n][fl[k] + size[fl[k]] - n := n];
    forall i | 0 <= i < |fl| ensures fl[i] in size' && size'[fl[i]] == if i == k then size[fl[k]] - n else size[fl[i]] {
    }
  }

  /** A block split: the tail is the caller's, the rest stays on the free list. */
  lemma SplitTiled(size: map<int, int>, fl: seq<int>, live: map<int, int>, owner: map<int, int>, k: int, n: int)
    requires Coalesced(size, fl) && Ascending(fl) && Tiled(size, fl, live, owner)
    requires 1 <= k < |fl| && 1 <= n < size[fl[k]]
    ensures var h := fl[k] + size[fl[k]] - n;
            Tiled(size[fl[k] := size[fl[k]] - n][h := n], fl, live[h := n], SplitOwner(owner, h, n))
  {
    SplitFresh(size, fl, live, owner, k, n);
    var h := fl[k] + size[fl[k]] - n;
    var size', live', owner' := size[fl[k] := size[fl[k]] - n][h := n], live[h := n], SplitOwner(owner, h, n);
    forall g, u | IsBlock(fl, live', g) && Holds(size', g, u) ensures u in owner' && owner'[u] == g {
      SplitUnit(size, fl, live, owner, k, n, g, u);
    }
    forall u | u in owner' ensures IsBlock(fl, live', owner'[u]) && Holds(size', owner'[u], u) {
      SplitUnitIn(size, fl, live, owner, k, n, u);
    }
  }

  lemma SplitUnitIn(size: map<int, int>, fl: seq<int>, live: map<int, int>, owner: map<int, int>, k: int, n: int, u: int)
    requires Coalesced(size, fl) && Ascending(fl) && Tiled(size, fl, live, owner)
    requires 1 <= k < |fl| && 1 <= n < size[fl[k]] && u in owner
    ensures var h := fl[k] + size[fl[k]] - n;
            var size', g := size[fl[k] := size[fl[k]] - n][h := n], SplitOwner(owner, h, n)[u];
            IsBlock(fl, live[h := n], g) && Holds(size', g, u)
  {
    var h := fl[k] + size[fl[k]] - n;
    SplitFresh(size, fl, live, owner, k, n);
    BlockUnits(size, fl, live, owner, fl[k], u) by {
      assert IsBlock(fl, live, fl[k]);
    }
    assert IsBlock(fl, live, owner[u]);
    Heads(fl, live, owner[u]);
    Heads(fl, live[h := n], owner[u]);
    Heads(fl, live[h := n], h);
    if !(h <= u < h + n) {
      assert owner[u] != h;
    }
  }

  lemma SplitUnit(size: map<int, int>, fl: seq<int>, live: map<int, int>, owner: map<int, int>, k: int, n: int, g: int, u: int)
    requires Coalesced(size, fl) && Ascending(fl) && Tiled(size, fl, live, owner)
    requires 1 <= k < |fl| && 1 <= n < size[fl[k]]
    requires var h := fl[k] + size[fl[k]] - n;
             var size' := size[fl[k] := size[fl[k]] - n][h := n];
             h !in live && h !in fl && IsBlock(fl, live[h := n], g) && Holds(size', g, u)
    ensures u in owner && SplitOwner(owner, fl[k] + size[fl[k]] - n, n)[u] == g
  {
    var h := fl[k] + size[fl[k]] - n;
    BlockUnits(size, fl, live, owner, fl[k], u) by {
      assert IsBlock(fl, live, fl[k]);
    }
    if g != h {
      assert IsBlock(fl, live, g);
      BlockUnits(size, fl, live, owner, g, u);
    }
  }

  ghost function GrantOwner(owner: map<int, int>, h: int, n: int): (r: map<int, int>)
  {
    map u | u in owner.Keys + Units(h, n) :: if h <= u < h + n then h else owner[u]
  }

  ghost function Units(h: int, n: int): (r: set<int>)
    ensures forall u :: u in r <==> h <= u < h + n
    decreases if n < 0 then 0 else n
  {
    if n <= 0 then {} else Units(h, n - 1) + {h + n - 1}
  }

  lemma GrantFresh(size: map<int, int>, fl: seq<int>, live: map<int, int>, owner: map<int, int>, h: int, g: int)
    requires Coalesced(size, fl) && Ascending(fl) && Tiled(size, fl, live, owner)
    requires fl[0] < h && (forall u :: u in owner ==> u < h)
    requires g in fl || g in live
    ensures g < h
  {
    if g != fl[0] {
      Heads(fl, live, g);
      BlockUnits(size, fl, live, owner, g, g);
    }
  }

  /** Memory from sbrk above everything else becomes one more live block. */
  lemma GrantTiled(size: map<int, int>, fl: seq<int>, live: map<int, int>, owner: map<int, int>, h: int, n: int)
    requires Coalesced(size, fl) && Ascending(fl) && Tiled(size, fl, live, owner)
    requires n >= 1 && fl[0] < h && (forall u :: u in owner ==> u < h)
    ensures h !in fl && h !in live
    ensures Coalesced(size[h := n], fl)
    ensures Tiled(size[h := n], fl, live[h := n], GrantOwner(owner, h, n))
  {
    var size', live', owner' := size[h := n], live[h := n], GrantOwner(owner, h, n);
    forall g | g in fl || g in live ensures g < h {
      GrantFresh(size, fl, live, owner, h, g);
    }
    forall g, u | IsBlock(fl, live', g) && Holds(size', g, u) ensures u in owner' && owner'[u] == g {
      if g != h {
        Heads(fl, live, g);
        Heads(fl, live', g);
        BlockUnits(size, fl, live, owner, g, u);
      }
    }
    forall u | u in owner' ensures IsBlock(fl, live', owner'[u]) && Holds(size', owner'[u], u) {
      if !(h <= u < h + n) {
        assert IsBlock(fl, live, owner[u]);
        assert IsBlock(fl, live', owner[u]);
      }
    }
  }

  /** Two live allocations never overlap, nor does one overlap a free block. */
  lemma LiveDisjoint(size: map<int, int>, fl: seq<int>, live: map<int, int>, owner: map<int, int>, g: int, h: int)
    requires Coalesced(size, fl) && Tiled(size, fl, live, owner)
    requires g in live && IsBlock(fl, live, h) && g != h
    ensures g + live[g] <= h || h + size[h] <= g
  {
    assert IsBlock(fl, live, g);
    BlockUnits(size, fl, live, owner, g, h);
    BlockUnits(size, fl, live, owner, h, g);
    BlockUnits(size, fl, live, owner, h, h);
    BlockUnits(size, fl, live, owner, g, g);
  }

  datatype Part = Chain | Sizes | Tiling

  ghost predicate PartOk(base: int, ptr: map<int, int>, size: map<int, int>, fl: seq<int>, live: map<int, int>, owner: map<int, int>, part: Part) {
    match part
    case Chain => fl != [] && fl[0] == base > 0 && Ring(ptr, fl) && Ascending(fl)
    case Sizes => Coalesced(size, fl)
    case Tiling => Tiled(size, fl, live, owner) && forall u :: u in owner ==> base < u
  }

  // The heap's invariant: a ring of separate free blocks, and every unit in one block.
  ghost predicate HeapOk(base: int, ptr: map<int, int>, size: map<int, int>, fl: seq<int>, live: map<int, int>, owner: map<int, int>) {
    forall part {:trigger PartOk(base, ptr, size, fl, live, owner, part)} :: PartOk(base, ptr, size, fl, live, owner, part)
  }

  lemma Parts(base: int, ptr: map<int, int>, size: map<int, int>, fl: seq<int>, live: map<int, int>, owner: map<int, int>)
    requires HeapOk(base, ptr, size, fl, live, owner)
    ensures fl != [] && fl[0] == base > 0 && Ring(ptr, fl) && Ascending(fl) && Coalesced(size, fl) && Tiled(size, fl, live, owner)
    ensures forall u :: u in owner ==> base < u
  {
    assert PartOk(base, ptr, size, fl, live, owner, Chain);
    assert PartOk(base, ptr, size, fl, live, owner, Sizes);
    assert PartOk(base, ptr, size, fl, live, owner, Tiling);
  }

  lemma HeapAt(base: int, ptr: map<int, int>, size: map<int, int>, fl: seq<int>, live: map<int, int>, owner: map<int, int>, i: int)
    requires HeapOk(base, ptr, size, fl, live, owner) && 0 <= i < |fl|
    ensures fl[i] in ptr && ptr[fl[i]] == After(fl, i)
    ensures fl[i] in size && (if i == 0 then size[fl[i]] == 0 && fl[i] == base > 0 else size[fl[i]] >= 1 && fl[i] > base > 0)
  {
    Parts(base, ptr, size, fl, live, owner);
    RingAt(ptr, fl, i);
  }

  lemma OnceOnList(base: int, ptr: map<int, int>, size: map<int, int>, fl: seq<int>, live: map<int, int>, owner: map<int, int>, i: int, j: int)
    requires HeapOk(base, ptr, size, fl, live, owner) && 0 <= i < |fl| && 0 <= j < |fl|
    ensures fl[i] == fl[j] <==> i == j
  {
    Parts(base, ptr, size, fl, live, owner);
  }

  lemma TakenOk(base: int, ptr: map<int, int>, size: map<int, int>, fl: seq<int>, live: map<int, int>, owner: map<int, int>, k: int)
    requires HeapOk(base, ptr, size, fl, live, owner) && 1 <= k < |fl| && fl[k] in ptr && fl[k] in size
    ensures HeapOk(base, ptr[fl[k - 1] := ptr[fl[k]]], size, Without(fl, k), live[fl[k] := size[fl[k]]], owner)
    ensures base < fl[k] && fl[k] !in live
  {
    Parts(base, ptr, size, fl, live, owner);
    TakenRing(ptr, fl, k);
    TakenTiled(size, fl, live, owner, k);
    WithoutAt(fl, k, 0);
  }

  lemma SplitOk(base: int, ptr: map<int, int>, size: map<int, int>, fl: seq<int>, live: map<int, int>, owner: map<int, int>, k: int, n: int)
    returns (owner': map<int, int>)
    requires HeapOk(base, ptr, size, fl, live, owner) && 1 <= k < |fl| && fl[k] in size && 1 <= n < size[fl[k]]
    ensures var h := fl[k] + (size[fl[k]] - n);
            && HeapOk(base, ptr, size[fl[k] := size[fl[k]] - n][h := n], fl, live[h := n], owner')
            && base < h && h !in live && owner'.Keys == owner.Keys
  {
    Parts(base, ptr, size, fl, live, owner);
    SplitFresh(size, fl, live, owner, k, n);
    SplitCoalesced(size, fl, k, n);
    SplitTiled(size, fl, live, owner, k, n);
    owner' := SplitOwner(owner, fl[k] + (size[fl[k]] - n), n);
  }

  lemma GrantOk(base: int, ptr: map<int, int>, size: map<int, int>, fl: seq<int>, live: map<int, int>, owner: map<int, int>, h: int, n: int)
    returns (owner': map<int, int>)
    requires HeapOk(base, ptr, size, fl, live, owner) && n >= 1 && base < h && (forall u :: u in owner ==> u < h)
    ensures HeapOk(base, ptr, size[h := n], fl, live[h := n], owner') && h !in live
    ensures owner'.Keys == owner.Keys + Units(h, n) && live[h := n] - {h} == live
  {
    owner' := GrantOwner(owner, h, n);
    Parts(base, ptr, size, fl, live, owner);
    GrantTiled(size, fl, live, owner, h, n);
  }

  lemma FreedOk(base: int, ptr: map<int, int>, size: map<int, int>, fl: seq<int>, live: map<int, int>, owner: map<int, int>,
                t: int, bp: int, ptr': map<int, int>)
    returns (owner': map<int, int>)
    requires HeapOk(base, ptr, size, fl, live, owner) && bp in live && bp in size && Between(fl, t, bp)
    requires fl[t] in size && (t + 1 < |fl| ==> fl[t + 1] in size)
    requires fl[t] in ptr && (JoinsUp(size, fl, t, bp) ==> ptr[fl[t]] in ptr)
    requires var nx := if JoinsUp(size, fl, t, bp) then ptr[ptr[fl[t]]] else ptr[fl[t]];
             ptr' == if JoinsDown(size, fl, t, bp) then ptr[bp := nx][fl[t] := nx] else ptr[bp := nx][fl[t] := bp]
    ensures var fl' := FreedList(fl, t, bp, JoinsUp(size, fl, t, bp), JoinsDown(size, fl, t, bp));
            && HeapOk(base, ptr', FreedSize(size, fl, t, bp), fl', live - {bp}, owner')
            && owner'.Keys == owner.Keys
            && t < |fl'| && fl'[t] == fl[t]
            && Fits(FreedSize(size, fl, t, bp), fl', size[bp])
  {
    Parts(base, ptr, size, fl, live, owner);
    var up, down := JoinsUp(size, fl, t, bp), JoinsDown(size, fl, t, bp);
    FreedRing(ptr, fl, t, bp, up, down, ptr');
    FreedAscending(fl, t, bp, up, down);
    FreedCoalesced(size, fl, live, owner, t, bp);
    FreedTiled(size, fl, live, owner, t, bp);
    FreedFits(size, fl, live, owner, t, bp);
    owner' := FreedOwner(owner, size, fl, t, bp);
  }

  // Some free block has at least n units.
  ghost predicate Fits(size: map<int, int>, fl: seq<int>, n: int) {
    exists i :: 1 <= i < |fl| && fl[i] in size && size[fl[i]] >= n
  }

  // The place d steps after a on a ring of n.
  ghost function Pos(a: int, d: int, n: int): (i: int) {
    if a + d < n then a + d else a + d - n
  }

  lemma FreedFits(size: map<int, int>, fl: seq<int>, live: map<int, int>, owner: map<int, int>, t: int, bp: int)
    requires Coalesced(size, fl) && Ascending(fl) && Tiled(size, fl, live, owner) && bp in live && Between(fl, t, bp)
    ensures var up, down := JoinsUp(size, fl, t, bp), JoinsDown(size, fl, t, bp);
            Fits(FreedSize(size, fl, t, bp), FreedList(fl, t, bp, up, down), size[bp])
  {
    var up, down := JoinsUp(size, fl, t, bp), JoinsDown(size, fl, t, bp);
    FreedAt(fl, t, bp, up, down, if down then t else t + 1);
    assert down ==> t >= 1;
  }

  lemma Target(base: int, ptr: map<int, int>, size: map<int, int>, fl: seq<int>, live: map<int, int>, owner: map<int, int>, bp: int) returns (t: int)
    requires HeapOk(base, ptr, size, fl, live, owner) && bp in live
    ensures Between(fl, t, bp)
  {
    Parts(base, ptr, size, fl, live, owner);
    LiveAt(base, ptr, size, fl, live, owner, bp);
    t := 0;
    while t + 1 < |fl| && fl[t + 1] < bp
      invariant 0 <= t < |fl| && fl[t] < bp
    {
      t := t + 1;
    }
  }

  lemma LiveAt(base: int, ptr: map<int, int>, size: map<int, int>, fl: seq<int>, live: map<int, int>, owner: map<int, int>, bp: int)
    requires HeapOk(base, ptr, size, fl, live, owner) && bp in live
    ensures base < bp && bp !in fl && bp in size && size[bp] == live[bp] >= 1
  {
    Parts(base, ptr, size, fl, live, owner);
    BlockUnits(size, fl, live, owner, bp, bp) by {
      assert IsBlock(fl, live, bp);
    }
  }

  /** free's search stops exactly at the node that bp belongs after. */
  lemma StopsAt(base: int, ptr: map<int, int>, size: map<int, int>, fl: seq<int>, live: map<int, int>, owner: map<int, int>, t: int, bp: int, i: int)
    requires HeapOk(base, ptr, size, fl, live, owner) && Between(fl, t, bp) && 0 <= i < |fl|
    ensures var p, nx := fl[i], After(fl, i);
            i == t <==> (bp > p && bp < nx) || (p >= nx && (bp > p || bp < nx))
  {
    Parts(base, ptr, size, fl, live, owner);
  }

  // The d places after at are all too small.
  ghost predicate Small(size: map<int, int>, fl: seq<int>, at: int, d: int, n: int)
    requires 0 <= at < |fl|
  {
    forall e {:trigger Pos(at, e, |fl|)} :: 1 <= e <= d && e <= |fl| ==>
      fl[Pos(at, e, |fl|)] in size && size[fl[Pos(at, e, |fl|)]] < n
  }

  lemma SmallMore(size: map<int, int>, fl: seq<int>, at: int, d: int, n: int)
    requires 0 <= at < |fl| && 0 <= d < |fl| && Small(size, fl, at, d, n)
    requires fl[Pos(at, d + 1, |fl|)] in size && size[fl[Pos(at, d + 1, |fl|)]] < n
    ensures Small(size, fl, at, d + 1, n)
  {
  }

  lemma NoneFits(size: map<int, int>, fl: seq<int>, at: int, n: int)
    requires 0 <= at < |fl| && Small(size, fl, at, |fl|, n)
    ensures !Fits(size, fl, n)
  {
    forall i | 1 <= i < |fl| ensures fl[i] in size && size[fl[i]] < n {
      var e := if i > at then i - at else i - at + |fl|;
      assert Pos(at, e, |fl|) == i;
    }
  }

  // Following ptr moves one place along the ring.
  lemma NextAt(base: int, ptr: map<int, int>, size: map<int, int>, fl: seq<int>, live: map<int, int>, owner: map<int, int>, at: int, d: int)
    requires HeapOk(base, ptr, size, fl, live, owner) && 0 <= at < |fl| && 0 <= d < |fl|
    ensures var p := fl[Pos(at, d, |fl|)];
            p in ptr && ptr[p] == fl[Pos(at, d + 1, |fl|)] && ptr[p] in size && ptr[p] > 0
  {
    HeapAt(base, ptr, size, fl, live, owner, Pos(at, d, |fl|));
    HeapAt(base, ptr, size, fl, live, owner, Pos(at, d + 1, |fl|));
  }

  lemma EmptyOk(base: int, ptr: map<int, int>, size: map<int, int>)
    requires base > 0 && base in ptr && ptr[base] == base && base in size && size[base] == 0
    ensures HeapOk(base, ptr, size, [base], map[], map[])
  {
  }

  function NUnits(nbytes: nat): (n: nat)
    ensures n >= 1 && (n - 1) * UNIT >= nbytes > (n - 2) * UNIT
  {
    (nbytes + UNIT - 1) / UNIT + 1
  }

  // The int that sbrk receives when morecore passes it a 64-bit product.
  function ToInt(x: nat): (r: int) {
    if x % 0x1_0000_0000 < 0x8000_0000 then x % 0x1_0000_0000 else x % 0x1_0000_0000 - 0x1_0000_0000
  }

  function CoreUnits(nu: nat): (r: nat)
    ensures r >= nu && r >= MINCORE && (r == nu || r == MINCORE)
  {
    if nu < MINCORE then MINCORE else nu
  }

  // sbrk receives the byte count that morecore means.
  predicate Meant(nunits: nat) {
    ToInt(CoreUnits(nunits) * UNIT) == CoreUnits(nunits) * UNIT
  }

  /** For the largest request sbrk is asked for 16 bytes, and just above the bound for fewer than none. */
  lemma HugeRequests()
    ensures ToInt(CoreUnits(NUnits(0xffff_ffff)) * UNIT) == 16 && CoreUnits(NUnits(0xffff_ffff)) * UNIT == 0x1_0000_0010
    ensures ToInt(CoreUnits(NUnits(0x7fff_ffe1)) * UNIT) == -0x8000_0000
  {
    assert NUnits(0xffff_ffff) == 0x1000_0001;
    assert NUnits(0x7fff_ffe1) == 0x800_0000;
  }

  /** morecore asks sbrk for the bytes it means to get exactly when the request is small enough. */
  lemma RequestFits(nbytes: nat)
    requires nbytes < 0x1_0000_0000
    ensures Meant(NUnits(nbytes)) <==> nbytes <= 0x7fff_ffe0
  {
    var n := NUnits(nbytes);
    assert n <= 0x7ff_ffff <==> nbytes <= 0x7fff_ffe0;
  }

  class Heap {
    const base: int
    var ptr: map<int, int>
    var size: map<int, int>
    var freep: int                  // 0 before the first call
    ghost var fl: seq<int>          // the free list in ring order from base
    ghost var at: int               // freep's place on it
    ghost var live: map<int, int>   // allocated blocks and their sizes in units
    ghost var owner: map<int, int>  // every unit obtained from sbrk, and its block

    ghost predicate Valid()
      reads this
    {
      && base > 0
      && (freep == 0 ==> live == map[] && owner == map[])
      && (freep != 0 ==> Ready())
    }

    ghost predicate Ready()
      reads this
    {
      && fl != [] && fl[0] == base > 0
      && 0 <= at < |fl| && freep == fl[at] > 0
      && HeapOk(base, ptr, size, fl, live, owner)
    }

    constructor (b: int)
      requires b > 0
      ensures Valid() && base == b && live == map[] && owner == map[] && freep == 0
    {
      base := b;
      ptr, size, freep := map[], map[], 0;
      fl, at, live, owner := [], 0, map[], map[];
    }

    // The search loop of free: the node whose successor belongs after bp.
    method FindPlace(bp: int, ghost t: int) returns (p: int)
      requires Ready() && Between(fl, t, bp)
      ensures p == fl[t]
    {
      p := freep;
      ghost var i := at;
      HeapAt(base, ptr, size, fl, live, owner, i);
      StopsAt(base, ptr, size, fl, live, owner, t, bp, i);
      while !(bp > p && bp < ptr[p])
        invariant 0 <= i < |fl| && p == fl[i] && p in ptr && ptr[p] == After(fl, i)
        invariant i == t <==> (bp > p && bp < ptr[p]) || (p >= ptr[p] && (bp > p || bp < ptr[p]))
        decreases if i <= t then t - i else t - i + |fl|
      {
        if p >= ptr[p] && (bp > p || bp < ptr[p]) {
          break;
        }
        p := ptr[p];
        i := Pos(i, 1, |fl|);
        HeapAt(base, ptr, size, fl, live, owner, i);
        StopsAt(base, ptr, size, fl, live, owner, t, bp, i);
      }
    }

    // free's two merges, and the list and sizes they leave.
    method PutBack(bp: int, p: int, ghost t: int)
      requires Ready() && bp in live && Between(fl, t, bp) && p == fl[t]
      modifies this`ptr, this`size, this`freep
      ensures bp in old(size) && p in old(size) && (t + 1 < |fl| ==> fl[t + 1] in old(size))
      ensures p in old(ptr) && (JoinsUp(old(size), fl, t, bp) ==> old(ptr)[p] in old(ptr))
      ensures var nx := if JoinsUp(old(size), fl, t, bp) then old(ptr)[old(ptr)[p]] else old(ptr)[p];
              ptr == (if JoinsDown(old(size), fl, t, bp) then old(ptr)[bp := nx][fl[t] := nx] else old(ptr)[bp := nx][fl[t] := bp])
      ensures size == FreedSize(old(size), fl, t, bp) && freep == p
    {
      HeapAt(base, ptr, size, fl, live, owner, t);
      LiveAt(base, ptr, size, fl, live, owner, bp);
      HeapAt(base, ptr, size, fl, live, owner, if t + 1 < |fl| then t + 1 else 0);
      if bp + size[bp] == ptr[p] {
        size := size[bp := size[bp] + size[ptr[p]]];
        ptr := ptr[bp := ptr[ptr[p]]];
      } else {
        ptr := ptr[bp := ptr[p]];
      }
      if p + size[p] == bp {
        size := size[p := size[p] + size[bp]];
        ptr := ptr[p := ptr[bp]];
      } else {
        ptr := ptr[p := bp];
      }
      freep := p;
    }

    method Free(ap: int)
      requires Valid() && ap - 1 in live
      modifies this
      ensures Ready() && live == old(live) - {ap - 1}
      ensures owner.Keys == old(owner.Keys)
      ensures Fits(size, fl, old(live[ap - 1]))
    {
      var bp := ap - 1;
      LiveAt(base, ptr, size, fl, live, owner, bp);
      ghost var t := Target(base, ptr, size, fl, live, owner, bp);
      HeapAt(base, ptr, size, fl, live, owner, t);
      var p := FindPlace(bp, t);
      PutBack(bp, p, t);
      ghost var owner' := FreedOk(base, old(ptr), old(size), fl, live, owner, t, bp, ptr);
      ghost var up, down := JoinsUp(old(size), fl, t, bp), JoinsDown(old(size), fl, t, bp);
      fl := FreedList(fl, t, bp, up, down);
      live, owner, at := live - {bp}, owner', t;
    }

    // What sbrk may answer: nothing, or memory above base and above all it gave before.
    ghost predicate CanGrant(grant: Option<int>)
      reads this
    {
      grant.Some? ==> base < grant.value && forall u :: u in owner ==> u < grant.value
    }

    // The header of the new block, as if it had been allocated.
    method AddBlock(hp: int, n: nat)
      requires Ready() && n >= 1 && CanGrant(Some(hp))
      modifies this`size, this`live, this`owner
      ensures Ready() && hp in live && live[hp] == n && live - {hp} == old(live)
      ensures owner.Keys == old(owner.Keys) + Units(hp, n)
    {
      ghost var owner' := GrantOk(base, ptr, size, fl, live, owner, hp, n);
      size := size[hp := n];
      live, owner := live[hp := n], owner';
    }

    method Morecore(nu: nat, grant: Option<int>) returns (p: int)
      requires Ready() && nu >= 1 && CanGrant(grant)
      modifies this
      ensures Ready() && live == old(live)
      ensures grant.None? ==> p == 0 && unchanged(this)
      ensures grant.Some? ==> p == freep && Fits(size, fl, nu)
      ensures grant.Some? ==> owner.Keys == old(owner.Keys) + Units(grant.value, CoreUnits(nu))
    {
      var n := CoreUnits(nu);
      if grant.None? {
        return 0;
      }
      var hp := grant.value;
      AddBlock(hp, n);
      Free(hp + 1);
      return freep;
    }

    // Hand out n units of the block p == fl[k], whose predecessor is prevp.
    method Take(p: int, prevp: int, n: nat, ghost k: int) returns (ap: int)
      requires Ready() && n >= 1 && 1 <= k < |fl| && p == fl[k] && prevp == fl[k - 1] && p in size && size[p] >= n
      modifies this
      ensures Ready() && ap - 1 !in old(live) && live == old(live)[ap - 1 := n]
      ensures owner.Keys == old(owner.Keys)
      ensures ap - 1 > base
    {
      HeapAt(base, ptr, size, fl, live, owner, k);
      HeapAt(base, ptr, size, fl, live, owner, k - 1);
      if size[p] == n {
        TakenOk(base, ptr, size, fl, live, owner, k);
        WithoutAt(fl, k, 0);
        WithoutAt(fl, k, k - 1);
        ptr := ptr[prevp := ptr[p]];
        fl := Without(fl, k);
        live := live[p := n];
        ap := p + 1;
      } else {
        ghost var owner' := SplitOk(base, ptr, size, fl, live, owner, k, n);
        var h := p + (size[p] - n);
        size := size[p := size[p] - n];
        size := size[h := n];
        live, owner := live[h := n], owner';
        ap := h + 1;
      }
      at := k - 1;
      freep := prevp;
    }

    // malloc's first call: base alone on the list.
    method Init()
      requires Valid() && freep == 0
      modifies this
      ensures Ready() && live == old(live) && owner == old(owner) && fl == [base]
    {
      ptr, size := ptr[base := base], size[base := 0];
      freep := base;
      fl, at := [base], 0;
      EmptyOk(base, ptr, size);
    }

    // Some free block can serve n units without more memory.
    ghost predicate CanServe(n: int)
      reads this
    {
      freep != 0 && Fits(size, fl, n)
    }

    /** stray: nothing fits and sbrk is asked for another number of bytes than malloc goes on to
        use; the model stops there. */
    method Malloc(nbytes: nat, grant: Option<int>) returns (ap: int, stray: bool)
      requires Valid() && CanGrant(grant) && nbytes < 0x1_0000_0000
      modifies this
      ensures Ready()
      ensures stray <==> nbytes > 0x7fff_ffe0 && !old(CanServe(NUnits(nbytes)))
      ensures ap == 0 <==> !old(CanServe(NUnits(nbytes))) && (grant.None? || nbytes > 0x7fff_ffe0)
      ensures ap == 0 ==> live == old(live)
      ensures ap != 0 ==> ap - 1 !in old(live) && live == old(live)[ap - 1 := NUnits(nbytes)]
      ensures ap == 0 || old(CanServe(NUnits(nbytes))) ==> owner.Keys == old(owner.Keys)
      ensures ap != 0 && !old(CanServe(NUnits(nbytes))) ==>
                owner.Keys == old(owner.Keys) + Units(grant.value, CoreUnits(NUnits(nbytes)))
    {
      RequestFits(nbytes);
      var nunits := NUnits(nbytes);
      if freep == 0 {
        Init();
      }
      var p, prevp;
      ghost var k;
      p, prevp, stray, k := FindFit(nunits, grant);
      if p == 0 {
        return 0, stray;
      }
      ap := Take(p, prevp, nunits, k);
    }

    // Back at freep after a block that is too small: ask for more memory, once.
    method AskMore(nunits: nat, grant: Option<int>) returns (p: int, stray: bool)
      requires Ready() && CanGrant(grant) && nunits >= 1
      modifies this
      ensures Ready() && live == old(live)
      ensures stray <==> !Meant(nunits)
      ensures p == 0 <==> grant.None? || stray
      ensures p == 0 ==> unchanged(this)
      ensures p != 0 ==> p == freep && Fits(size, fl, nunits)
      ensures p != 0 ==> owner.Keys == old(owner.Keys) + Units(grant.value, CoreUnits(nunits))
    {
      stray := ToInt(CoreUnits(nunits) * UNIT) != CoreUnits(nunits) * UNIT;
      if stray {
        return 0, true;
      }
      p := Morecore(nunits, grant);
    }

    // malloc's loop: p is d + 1 places after freep, all blocks in between are too small.
    ghost predicate Searching(p: int, prevp: int, nunits: nat, d: int)
      requires Ready()
      reads this
    {
      && 0 <= d < |fl| && p == fl[Pos(at, d + 1, |fl|)] > 0 && p in size
      && prevp == fl[Pos(at, d, |fl|)] && Small(size, fl, at, d, nunits)
    }

    // The loop while memory is not asked for: a block that fits, or all the way round.
    method Scan(nunits: nat) returns (p: int, prevp: int, ghost k: int)
      requires Ready() && nunits >= 1
      ensures p == 0 <==> !Fits(size, fl, nunits)
      ensures p != 0 ==> 1 <= k < |fl| && p == fl[k] && prevp == fl[k - 1] && p in size && size[p] >= nunits
    {
      prevp := freep;
      ghost var d := 0;
      NextAt(base, ptr, size, fl, live, owner, at, d);
      p := ptr[prevp];
      while size[p] < nunits
        invariant Searching(p, prevp, nunits, d)
        decreases |fl| - d
      {
        SmallMore(size, fl, at, d, nunits);
        OnceOnList(base, ptr, size, fl, live, owner, Pos(at, d + 1, |fl|), at);
        if p == freep {
          NoneFits(size, fl, at, nunits);
          return 0, prevp, 0;
        }
        d := d + 1;
        prevp := p;
        NextAt(base, ptr, size, fl, live, owner, at, d);
        p := ptr[p];
      }
      k := Pos(at, d + 1, |fl|);
      HeapAt(base, ptr, size, fl, live, owner, k);
    }

    // A block with enough units and its predecessor, or 0. morecore returns freep, from where the
    // loop goes on as it began.
    method FindFit(nunits: nat, grant: Option<int>) returns (p: int, prevp: int, stray: bool, ghost k: int)
      requires Ready() && CanGrant(grant) && nunits >= 1
      modifies this
      ensures Ready() && live == old(live)
      ensures stray <==> !Meant(nunits) && !old(Fits(size, fl, nunits))
      ensures p == 0 <==> !old(Fits(size, fl, nunits)) && (grant.None? || stray)
      ensures p != 0 ==> 1 <= k < |fl| && p == fl[k] && prevp == fl[k - 1] && p in size && size[p] >= nunits
      ensures p == 0 || old(Fits(size, fl, nunits)) ==> owner.Keys == old(owner.Keys)
      ensures p != 0 && !old(Fits(size, fl, nunits)) ==>
                owner.Keys == old(owner.Keys) + Units(grant.value, CoreUnits(nunits))
    {
      stray := false;
      p, prevp, k := Scan(nunits);
      if p == 0 {
        p, stray := AskMore(nunits, grant);
        if p != 0 {
          p, prevp, k := Scan(nunits);
        }
      }
    }
  }
}
