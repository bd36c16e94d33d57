/** The on-disk log: its header block, the region it occupies, and what
    recovery makes of a disk (kernel/log.c, kernel/fs.h). */
module LogFormat {
  import opened Common

  // One disk block as BSIZE / sizeof(int) words.
  const BWORDS: nat := 256

  type Block = b: seq<int> | |b| == BWORDS witness seq(BWORDS, _ => 0)
  type Disk = seq<Block>

  // log.start, log.size, and the number of blocks on the device.
  datatype Layout = Layout(start: nat, size: nat, nblocks: nat) {
    ghost predicate Valid() {
      1 <= size && start + size <= nblocks
    }

    // A block that is not part of the log region.
    predicate IsHome(b: int) {
      0 <= b < nblocks && !(start <= b < start + size)
    }
  }

  // A list of block numbers that the log region can hold and that recovery may install.
  ghost predicate LoggableBlocks(l: Layout, lh: seq<int>) {
    && Distinct(lh)
    && |lh| < BWORDS
    && |lh| <= l.size - 1
    && forall i :: 0 <= i < |lh| ==> l.IsHome(lh[i])
  }

  /** The header block after write_head: n, then the block numbers; the words
      past them keep what the buffer held. */
  function PutHeader(buf: Block, lh: seq<int>): (b: Block)
    requires |lh| < BWORDS
    ensures HeaderFits(b) && GetHeader(b) == lh
  {
    [|lh|] + lh + buf[1 + |lh|..]
  }

  predicate HeaderFits(b: Block) {
    0 <= b[0] < BWORDS
  }

  // What read_head copies into memory.
  function GetHeader(b: Block): (lh: seq<int>)
    requires HeaderFits(b)
  {
    b[1..1 + b[0]]
  }

  ghost predicate HeaderOk(l: Layout, d: Disk) {
    && l.Valid()
    && |d| == l.nblocks
    && HeaderFits(d[l.start])
    && LoggableBlocks(l, GetHeader(d[l.start]))
  }

  function Header(l: Layout, d: Disk): (lh: seq<int>)
    requires l.start < |d| && HeaderFits(d[l.start])
  {
    GetHeader(d[l.start])
  }

  /** install_trans from entry `tail` on: each log block is copied to its home. */
  ghost function Installed(l: Layout, d: Disk, lh: seq<int>, tail: nat): (r: Disk)
    requires l.Valid() && |d| == l.nblocks && LoggableBlocks(l, lh) && tail <= |lh|
    ensures |r| == |d|
    decreases |lh| - tail
  {
    if tail == |lh| then d
    else Installed(l, d[lh[tail] := d[l.start + 1 + tail]], lh, tail + 1)
  }

  /** recover_from_log: install what the on-disk header lists, then clear the header. */
  ghost function Recovered(l: Layout, d: Disk): (r: Disk)
    requires HeaderOk(l, d)
  {
    var r := Installed(l, d, Header(l, d), 0);
    r[l.start := PutHeader(r[l.start], [])]
  }

  ghost predicate SameHome(l: Layout, d: Disk, e: Disk) {
    && |d| == |e| == l.nblocks
    && forall b :: 0 <= b < l.nblocks && l.IsHome(b) ==> d[b] == e[b]
  }

  // `r` is `d` with the blocks lh[tail..] replaced by their log blocks.
  ghost predicate Copied(l: Layout, d: Disk, r: Disk, lh: seq<int>, tail: nat)
    requires l.Valid() && |d| == |r| == l.nblocks && LoggableBlocks(l, lh) && tail <= |lh|
  {
    && (forall i :: tail <= i < |lh| ==> r[lh[i]] == d[l.start + 1 + i])
    && (forall b :: 0 <= b < l.nblocks && b !in lh[tail..] ==> r[b] == d[b])
  }

  lemma CopiedOne(l: Layout, d: Disk, r: Disk, lh: seq<int>, tail: nat)
    requires l.Valid() && |d| == |r| == l.nblocks && LoggableBlocks(l, lh) && tail < |lh|
    requires Copied(l, d[lh[tail] := d[l.start + 1 + tail]], r, lh, tail + 1)
    ensures Copied(l, d, r, lh, tail)
  {
    var d' := d[lh[tail] := d[l.start + 1 + tail]];
    assert lh[tail..] == [lh[tail]] + lh[tail + 1..];
    assert forall b :: l.start <= b < l.start + l.size ==> d'[b] == d[b];
    assert lh[tail] !in lh[tail + 1..];
  }

  /** Installing leaves exactly the blocks outside lh[tail..] alone, and gives
      each block in it the contents of its own log block. */
  lemma {:induction false} InstalledContents(l: Layout, d: Disk, lh: seq<int>, tail: nat)
    requires l.Valid() && |d| == l.nblocks && LoggableBlocks(l, lh) && tail <= |lh|
    ensures Copied(l, d, Installed(l, d, lh, tail), lh, tail)
    decreases |lh| - tail
  {
    if tail < |lh| {
      InstalledContents(l, d[lh[tail] := d[l.start + 1 + tail]], lh, tail + 1);
      CopiedOne(l, d, Installed(l, d, lh, tail), lh, tail);
    }
  }

  /** The disk `d` stands for the home contents `base`: a block listed in the
      header is right in its log block, every other home block is right in place. */
  ghost predicate StandsFor(l: Layout, d: Disk, base: Disk) {
    && HeaderOk(l, d)
    && |base| == l.nblocks
    && HoldsIn(l, Header(l, d), d, base)
  }

  ghost predicate HoldsIn(l: Layout, lh: seq<int>, d: Disk, base: Disk)
    requires |d| == |base| == l.nblocks && LoggableBlocks(l, lh) && l.Valid()
  {
    && (forall i :: 0 <= i < |lh| ==> d[l.start + 1 + i] == base[lh[i]])
    && (forall b :: 0 <= b < l.nblocks && l.IsHome(b) && b !in lh ==> d[b] == base[b])
  }

  /** StandsFor is exactly "recovery would produce base". */
  lemma RecoveryYields(l: Layout, d: Disk, base: Disk)
    requires HeaderOk(l, d) && |base| == l.nblocks
    ensures StandsFor(l, d, base) <==> SameHome(l, Recovered(l, d), base)
  {
    RecoveredContents(l, d);
    Reading(l, Header(l, d), d, Recovered(l, d), base);
  }

  // `r` has the contents of d's log blocks at the places lh lists and those of d elsewhere.
  lemma Reading(l: Layout, lh: seq<int>, d: Disk, r: Disk, base: Disk)
    requires |d| == |r| == |base| == l.nblocks && LoggableBlocks(l, lh) && l.Valid()
    requires forall i :: 0 <= i < |lh| ==> r[lh[i]] == d[l.start + 1 + i]
    requires forall b :: 0 <= b < l.nblocks && l.IsHome(b) && b !in lh ==> r[b] == d[b]
    ensures SameHome(l, r, base) <==> HoldsIn(l, lh, d, base)
  {
    if SameHome(l, r, base) {
      forall i | 0 <= i < |lh| ensures d[l.start + 1 + i] == base[lh[i]] {
        assert r[lh[i]] == base[lh[i]];
      }
    }
  }

  lemma RecoveredContents(l: Layout, d: Disk)
    requires HeaderOk(l, d)
    ensures var lh, r := Header(l, d), Recovered(l, d);
            && (forall i :: 0 <= i < |lh| ==> r[lh[i]] == d[l.start + 1 + i])
            && (forall b :: 0 <= b < l.nblocks && l.IsHome(b) && b !in lh ==> r[b] == d[b])
  {
    var lh := Header(l, d);
    InstalledContents(l, d, lh, 0);
    assert lh[0..] == lh;
  }

  /** Recovering an already recovered disk changes nothing but, at most, stale
      words of the header: a crash after recovery is harmless. */
  lemma RecoveredIsStable(l: Layout, d: Disk)
    requires HeaderOk(l, d)
    ensures HeaderOk(l, Recovered(l, d)) && Header(l, Recovered(l, d)) == []
    ensures Recovered(l, Recovered(l, d)) == Recovered(l, d)
  {
  }

  // Every home block is in place but those the header lists from entry k on.
  ghost predicate InstalledUpTo(l: Layout, d: Disk, base: Disk, k: nat)
    requires StandsFor(l, d, base) && k <= |Header(l, d)|
  {
    forall b :: 0 <= b < l.nblocks && l.IsHome(b) && b !in Header(l, d)[k..] ==> d[b] == base[b]
  }

  /** One round of install_trans moves the boundary by one and keeps what the
      disk stands for. */
  lemma InstallOne(l: Layout, d: Disk, base: Disk, k: nat)
    requires StandsFor(l, d, base) && k < |Header(l, d)| && InstalledUpTo(l, d, base, k)
    ensures var d' := d[Header(l, d)[k] := d[l.start + 1 + k]];
            && StandsFor(l, d', base)
            && Header(l, d') == Header(l, d)
            && InstalledUpTo(l, d', base, k + 1)
  {
    var lh := Header(l, d);
    var d' := d[lh[k] := d[l.start + 1 + k]];
    assert d'[l.start] == d[l.start];
    assert lh[k..] == [lh[k]] + lh[k + 1..];
  }
}
