/** commit() and recover_from_log() as the loops of kernel/log.c run them, one
    process at a time, with every disk the device has held on record. */
module LogDevice {
  import opened LogFormat

  class Log {
    const l: Layout
    var disk: Disk      // the device
    var mem: Disk       // what bread returns: cached copies, else the device
    var lh: seq<int>    // log.lh.block[..log.lh.n]
    ghost var history: seq<Disk>  // the device after each bwrite

    // What every caller relies on between two block writes: the device stands for
    // `base`, and cached copies differ from it only in blocks lh lists.
    ghost predicate Valid(base: Disk)
      reads this
    {
      && StandsFor(l, disk, base)
      && LoggableBlocks(l, lh)
      && history != [] && history[|history| - 1] == disk
      && Cached(l, disk, mem, lh)
    }

    // Every disk since the first `from` would be recovered to `base`.
    ghost predicate SafeSince(from: nat, base: Disk)
      reads this
    {
      forall i {:trigger StandsFor(l, history[i], base)} :: from <= i < |history| ==> StandsFor(l, history[i], base)
    }

    constructor (layout: Layout, d: Disk)
      requires HeaderOk(layout, d)
      ensures l == layout && disk == d && mem == d && lh == [] && history == [d]
      ensures Valid(Recovered(layout, d)) && SafeSince(0, Recovered(layout, d))
    {
      l, disk, mem, lh, history := layout, d, d, [], [d];
      new;
      RecoveryYields(l, d, Recovered(l, d));
    }

    method Bwrite(b: int, data: Block)
      requires 0 <= b < |disk| && b < |mem|
      modifies this`disk, this`mem, this`history
      ensures disk == old(disk)[b := data] && mem == old(mem)[b := data]
      ensures history == old(history) + [disk]
    {
      disk, mem := disk[b := data], mem[b := data];
      history := history + [disk];
    }

    method EncodeHead() returns (b: Block)
      requires l.start < |mem| && |lh| < BWORDS
      ensures b == PutHeader(mem[l.start], lh)
    {
      ghost var buf := mem[l.start];
      var hb := new int[BWORDS](i requires 0 <= i < BWORDS reads this => if l.start < |mem| then mem[l.start][i] else 0);
      hb[0] := |lh|;
      var i := 0;
      while i < |lh|
        modifies hb
        invariant 0 <= i <= |lh|
        invariant hb[0] == |lh| && hb[1..1 + i] == lh[..i]
        invariant forall j :: 1 + i <= j < BWORDS ==> hb[j] == buf[j]
      {
        hb[1 + i] := lh[i];
        i := i + 1;
      }
      assert hb[..] == [hb[0]] + hb[1..1 + |lh|] + hb[1 + |lh|..];
      assert hb[1 + |lh|..] == buf[1 + |lh|..];
      b := hb[..];
    }

    method WriteHead()
      requires l.start < |disk| == |mem| && |lh| < BWORDS
      modifies this`disk, this`mem, this`history
      ensures var h := PutHeader(old(mem)[l.start], lh);
              disk == old(disk)[l.start := h] && mem == old(mem)[l.start := h]
      ensures history == old(history) + [disk]
    {
      var hb := EncodeHead();
      Bwrite(l.start, hb);
    }

    method ReadHead()
      requires l.start < |mem| && HeaderFits(mem[l.start])
      modifies this`lh
      ensures lh == GetHeader(mem[l.start])
    {
      var hb := mem[l.start];
      lh := [];
      var i := 0;
      while i < hb[0]
        invariant 0 <= i <= hb[0]
        invariant lh == hb[1..1 + i]
      {
        lh := lh + [hb[1 + i]];
        i := i + 1;
      }
    }

    /** Copying the log blocks home keeps every disk on the way recoverable to `base`
        and ends with all home blocks in place. */
    method InstallTrans(ghost base: Disk)
      requires Valid(base) && lh == Header(l, disk)
      modifies this`disk, this`mem, this`history
      ensures Valid(base) && lh == Header(l, disk)
      ensures SameHome(l, disk, base)
      ensures mem == disk
      ensures old(history) <= history && SafeSince(|old(history)|, base)
    {
      var tail := 0;
      MidStart(l, disk, mem, base, lh);
      while tail < |lh|
        invariant 0 <= tail <= |lh|
        invariant MidInstall(l, disk, mem, base, lh, tail)
        invariant history != [] && history[|history| - 1] == disk
        invariant old(history) <= history && SafeSince(|old(history)|, base)
      {
        InstallBlock(base, tail, |old(history)|);
        tail := tail + 1;
      }
      MidEnd(l, disk, mem, base, lh);
    }

    method InstallBlock(ghost base: Disk, tail: nat, ghost from: nat)
      requires MidInstall(l, disk, mem, base, lh, tail) && tail < |lh|
      requires history != [] && from <= |history| && SafeSince(from, base)
      modifies this`disk, this`mem, this`history
      ensures MidInstall(l, disk, mem, base, lh, tail + 1)
      ensures history == old(history) + [disk] && SafeSince(from, base)
    {
      InstallRound(l, disk, mem, base, lh, tail);
      Bwrite(lh[tail], mem[l.start + 1 + tail]);
    }

    method WriteLog(ghost base: Disk)
      requires Valid(base) && Header(l, disk) == []
      modifies this`disk, this`mem, this`history
      ensures Valid(base) && Header(l, disk) == [] && InLog(l, disk, mem, lh, |lh|)
      ensures forall b :: 0 <= b < l.nblocks && l.IsHome(b) ==> mem[b] == old(mem)[b]
      ensures old(history) <= history && SafeSince(|old(history)|, base)
    {
      var tail := 0;
      while tail < |lh|
        invariant 0 <= tail <= |lh|
        invariant Valid(base) && Header(l, disk) == [] && InLog(l, disk, mem, lh, tail)
        invariant forall b :: 0 <= b < l.nblocks && l.IsHome(b) ==> mem[b] == old(mem)[b]
        invariant old(history) <= history && SafeSince(|old(history)|, base)
      {
        LogBlock(base, tail, |old(history)|);
        tail := tail + 1;
      }
    }

    method LogBlock(ghost base: Disk, tail: nat, ghost from: nat)
      requires Valid(base) && Header(l, disk) == [] && tail < |lh| && InLog(l, disk, mem, lh, tail)
      requires from <= |history| && SafeSince(from, base)
      modifies this`disk, this`mem, this`history
      ensures Valid(base) && Header(l, disk) == [] && InLog(l, disk, mem, lh, tail + 1)
      ensures forall b :: 0 <= b < l.nblocks && l.IsHome(b) ==> mem[b] == old(mem)[b]
      ensures history == old(history) + [disk] && SafeSince(from, base)
    {
      LogRound(l, disk, mem, base, lh, tail);
      Bwrite(l.start + 1 + tail, mem[lh[tail]]);
    }

    /** Group commit. There is one block write, the header's, before which every disk
        recovers to the old contents and from which on every disk recovers to the
        contents of the cache; with nothing logged nothing is written. */
    method Commit(ghost base: Disk) returns (ghost point: nat)
      requires Valid(base) && Header(l, disk) == []
      modifies this
      ensures Valid(old(mem)) && lh == [] && Header(l, disk) == []
      ensures old(lh) == [] ==> history == old(history)
      ensures SameHome(l, disk, old(mem))
      ensures old(history) <= history && |old(history)| <= point <= |history|
      ensures old(lh) != [] ==> point < |history|
      ensures forall i :: |old(history)| <= i < point ==> StandsFor(l, history[i], base)
      ensures forall i :: point <= i < |history| ==> StandsFor(l, history[i], old(mem))
    {
      point := |history|;
      if |lh| > 0 {
        ghost var cur := mem;
        WriteLog(base);
        point := |history|;
        ghost var logged, before := disk, history;
        WriteHead();
        CommitPointDisk(l, logged, disk, base, cur, lh);
        InstallAndErase(cur);
        assert before <= history;
      }
    }

    // install_trans, then an empty header.
    method InstallAndErase(ghost base: Disk)
      requires Valid(base) && lh == Header(l, disk)
      modifies this`disk, this`mem, this`history, this`lh
      ensures Valid(base) && lh == [] && Header(l, disk) == [] && SameHome(l, disk, base)
      ensures old(history) < history && SafeSince(|old(history)|, base)
    {
      InstallTrans(base);
      ghost var done := history;
      EraseHeaderDisk(l, disk, base, mem[l.start]);
      lh := [];
      WriteHead();
      assert history == done + [disk];
    }

    /** Recovery from any disk, including one left by an interrupted recovery: every
        disk on the way still recovers to the same contents, and at the end they are
        in place. */
    method RecoverFromLog()
      requires |history| > 0 && history[|history| - 1] == disk && mem == disk && lh == []
      requires HeaderOk(l, disk)
      modifies this
      ensures lh == [] && HeaderOk(l, disk) && Header(l, disk) == []
      ensures SameHome(l, disk, Recovered(l, old(disk)))
      ensures old(history) <= history && SafeSince(|old(history)|, Recovered(l, old(disk)))
    {
      ghost var base := Recovered(l, disk);
      RecoveryYields(l, disk, base);
      ReadHead();
      InstallAndErase(base);
    }
  }

  // The first k log blocks hold the cached contents.
  ghost predicate InLog(l: Layout, d: Disk, mem: Disk, lh: seq<int>, k: nat)
  {
    && |d| == |mem| == l.nblocks && LoggableBlocks(l, lh) && k <= |lh| && l.Valid()
    && forall i :: 0 <= i < k ==> d[l.start + 1 + i] == mem[lh[i]]
  }

  // One round of write_log on the device and on the cache.
  lemma LogRound(l: Layout, d: Disk, mem: Disk, base: Disk, lh: seq<int>, k: nat)
    requires StandsFor(l, d, base) && Header(l, d) == [] && k < |lh|
    requires InLog(l, d, mem, lh, k) && Cached(l, d, mem, lh)
    ensures var d', mem' := d[l.start + 1 + k := mem[lh[k]]], mem[l.start + 1 + k := mem[lh[k]]];
            && StandsFor(l, d', base) && Header(l, d') == []
            && InLog(l, d', mem', lh, k + 1) && Cached(l, d', mem', lh)
  {
    var d' := d[l.start + 1 + k := mem[lh[k]]];
    assert l.IsHome(lh[k]) && d'[l.start] == d[l.start];
  }

  // Cached copies differ from the device only in the given blocks.
  ghost predicate Cached(l: Layout, d: Disk, mem: Disk, dirty: seq<int>) {
    && |d| == |mem| == l.nblocks
    && forall b :: 0 <= b < l.nblocks && b !in dirty ==> mem[b] == d[b]
  }

  datatype MidPart = Recoverable | Listed | InPlace | Agree

  ghost predicate MidPartOk(l: Layout, d: Disk, mem: Disk, base: Disk, lh: seq<int>, k: nat, part: MidPart) {
    match part
    case Recoverable => StandsFor(l, d, base)
    case Listed => HeaderOk(l, d) && lh == Header(l, d) && k <= |lh|
    case InPlace => StandsFor(l, d, base) && k <= |Header(l, d)| && InstalledUpTo(l, d, base, k)
    case Agree => k <= |lh| && Cached(l, d, mem, lh[k..])
  }

  // Before round k of install_trans.
  ghost predicate MidInstall(l: Layout, d: Disk, mem: Disk, base: Disk, lh: seq<int>, k: nat) {
    forall part {:trigger MidPartOk(l, d, mem, base, lh, k, part)} :: MidPartOk(l, d, mem, base, lh, k, part)
  }

  lemma MidMeans(l: Layout, d: Disk, mem: Disk, base: Disk, lh: seq<int>, k: nat)
    ensures MidInstall(l, d, mem, base, lh, k) <==>
      && StandsFor(l, d, base) && lh == Header(l, d) && k <= |lh|
      && InstalledUpTo(l, d, base, k) && Cached(l, d, mem, lh[k..])
  {
    if MidInstall(l, d, mem, base, lh, k) {
      assert MidPartOk(l, d, mem, base, lh, k, Recoverable) && MidPartOk(l, d, mem, base, lh, k, Listed);
      assert MidPartOk(l, d, mem, base, lh, k, InPlace) && MidPartOk(l, d, mem, base, lh, k, Agree);
    }
  }

  lemma MidStart(l: Layout, d: Disk, mem: Disk, base: Disk, lh: seq<int>)
    requires StandsFor(l, d, base) && lh == Header(l, d) && Cached(l, d, mem, lh)
    ensures MidInstall(l, d, mem, base, lh, 0)
  {
    assert lh[0..] == lh;
    MidMeans(l, d, mem, base, lh, 0);
  }

  lemma MidEnd(l: Layout, d: Disk, mem: Disk, base: Disk, lh: seq<int>)
    requires MidInstall(l, d, mem, base, lh, |lh|)
    ensures StandsFor(l, d, base) && lh == Header(l, d) && SameHome(l, d, base) && mem == d
  {
    MidMeans(l, d, mem, base, lh, |lh|);
    assert lh[|lh|..] == [];
  }

  lemma CachedRound(l: Layout, d: Disk, mem: Disk, lh: seq<int>, k: nat, v: Block)
    requires k < |lh| && 0 <= lh[k] < l.nblocks && Cached(l, d, mem, lh[k..])
    ensures Cached(l, d[lh[k] := v], mem[lh[k] := v], lh[k + 1..])
  {
    assert lh[k..] == [lh[k]] + lh[k + 1..];
  }

  // One round of install_trans on the device and on the cache.
  lemma InstallRound(l: Layout, d: Disk, mem: Disk, base: Disk, lh: seq<int>, k: nat)
    requires MidInstall(l, d, mem, base, lh, k) && k < |lh|
    ensures |d| == |mem| && l.start + 1 + k < |mem| && 0 <= lh[k] < |d|
    ensures var v := mem[l.start + 1 + k];
            && MidInstall(l, d[lh[k] := v], mem[lh[k] := v], base, lh, k + 1)
            && StandsFor(l, d[lh[k] := v], base)
  {
    MidMeans(l, d, mem, base, lh, k);
    var v := mem[l.start + 1 + k];
    assert l.start + 1 + k !in lh[k..] && l.IsHome(lh[k]);
    InstallOne(l, d, base, k);
    CachedRound(l, d, mem, lh, k, v);
    MidMeans(l, d[lh[k] := v], mem[lh[k] := v], base, lh, k + 1);
  }

  // Writing the header over complete log blocks switches the contents the disk stands for.
  lemma CommitPointDisk(l: Layout, d: Disk, d': Disk, base: Disk, cur: Disk, lh: seq<int>)
    requires StandsFor(l, d, base) && Header(l, d) == [] && LoggableBlocks(l, lh)
    requires |cur| == l.nblocks
    requires |d'| == |d| && d' == d[l.start := d'[l.start]]
    requires HeaderFits(d'[l.start]) && GetHeader(d'[l.start]) == lh
    requires forall i :: 0 <= i < |lh| ==> d[l.start + 1 + i] == cur[lh[i]]
    requires forall b :: 0 <= b < l.nblocks && l.IsHome(b) && b !in lh ==> cur[b] == d[b]
    ensures StandsFor(l, d', cur) && Header(l, d') == lh
  {
  }

  // Clearing the header once all home blocks are in place changes nothing.
  lemma EraseHeaderDisk(l: Layout, d: Disk, base: Disk, buf: Block)
    requires StandsFor(l, d, base) && SameHome(l, d, base)
    ensures StandsFor(l, d[l.start := PutHeader(buf, [])], base)
    ensures Header(l, d[l.start := PutHeader(buf, [])]) == []
  {
  }
}
