/** Block allocation, the block map and file contents (kernel/fs.c), and the
    chunked writes of kernel/file.c. */
module Files {
  import opened FsLayout

  // A block number, if there is one.
  function Some(a: nat): (s: set<nat>) {
    if a == 0 then {} else {a}
  }

  // The allocation of file i may have grown: nothing owned has moved or, apart from
  // i's own indirect block, changed; new blocks went to the given slots of i, and new
  // data blocks are zero.
  ghost predicate Grew(d: Disk, inodes: seq<Inode>, owner: map<nat, Place>,
                       d': Disk, inodes': seq<Inode>, owner': map<nat, Place>, i: nat, slots: set<nat>)
  {
    && |d'| == |d| && |inodes'| == |inodes| && i < |inodes|
    && |inodes[i].addrs| == |inodes'[i].addrs| == NDIRECT + 1
    && inodes'[i].size == inodes[i].size
    && (inodes[i].addrs[INDIRECT] != 0 ==> inodes'[i].addrs[INDIRECT] == inodes[i].addrs[INDIRECT])
    && (forall part {:trigger GrewPartOk(d, inodes, owner, d', inodes', owner', i, slots, part)} ::
          GrewPartOk(d, inodes, owner, d', inodes', owner', i, slots, part))
  }

  datatype GrewPart = OtherInodes | OldBlocks | NewBlocks

  ghost predicate GrewPartOk(d: Disk, inodes: seq<Inode>, owner: map<nat, Place>,
                             d': Disk, inodes': seq<Inode>, owner': map<nat, Place>, i: nat, slots: set<nat>, part: GrewPart)
    requires |d'| == |d| && |inodes'| == |inodes|
  {
    match part
    case OtherInodes => forall j :: 0 <= j < |inodes| && j != i ==> inodes'[j] == inodes[j]
    case OldBlocks =>
      && (forall b :: b in owner ==> b in owner' && owner'[b] == owner[b])
      && (forall b :: b in owner && b < |d| && owner[b] != Place(i, INDIRECT) ==> d'[b] == d[b])
    case NewBlocks =>
      && (forall b :: b in owner' && b !in owner ==> owner'[b].inum == i && owner'[b].slot in slots)
      && (forall b :: b in owner' && b !in owner && b < |d| && owner'[b].slot != INDIRECT ==> d'[b] == Zeroed())
  }

  lemma GrewMeans(d: Disk, inodes: seq<Inode>, owner: map<nat, Place>,
                  d': Disk, inodes': seq<Inode>, owner': map<nat, Place>, i: nat, slots: set<nat>)
    requires Grew(d, inodes, owner, d', inodes', owner', i, slots)
    ensures forall j :: 0 <= j < |inodes| && j != i ==> inodes'[j] == inodes[j]
    ensures forall b :: b in owner ==> b in owner' && owner'[b] == owner[b]
    ensures forall b :: b in owner && b < |d| && owner[b] != Place(i, INDIRECT) ==> d'[b] == d[b]
    ensures forall b :: b in owner' && b !in owner ==> owner'[b].inum == i && owner'[b].slot in slots
    ensures forall b :: b in owner' && b !in owner && b < |d| && owner'[b].slot != INDIRECT ==> d'[b] == Zeroed()
  {
    assert GrewPartOk(d, inodes, owner, d', inodes', owner', i, slots, OtherInodes);
    assert GrewPartOk(d, inodes, owner, d', inodes', owner', i, slots, OldBlocks);
    assert GrewPartOk(d, inodes, owner, d', inodes', owner', i, slots, NewBlocks);
  }

  lemma GrewMore(d: Disk, inodes: seq<Inode>, owner: map<nat, Place>,
                 d': Disk, inodes': seq<Inode>, owner': map<nat, Place>, i: nat, slots: set<nat>, more: set<nat>)
    requires Grew(d, inodes, owner, d', inodes', owner', i, slots) && slots <= more
    ensures Grew(d, inodes, owner, d', inodes', owner', i, more)
  {
    GrewMeans(d, inodes, owner, d', inodes', owner', i, slots);
  }

  lemma GrewTrans(d: Disk, inodes: seq<Inode>, owner: map<nat, Place>,
                  d1: Disk, inodes1: seq<Inode>, owner1: map<nat, Place>,
                  d2: Disk, inodes2: seq<Inode>, owner2: map<nat, Place>, i: nat, s1: set<nat>, s2: set<nat>)
    requires Grew(d, inodes, owner, d1, inodes1, owner1, i, s1)
    requires Grew(d1, inodes1, owner1, d2, inodes2, owner2, i, s2)
    ensures Grew(d, inodes, owner, d2, inodes2, owner2, i, s1 + s2)
  {
    GrewMeans(d, inodes, owner, d1, inodes1, owner1, i, s1);
    GrewMeans(d1, inodes1, owner1, d2, inodes2, owner2, i, s2);
  }

  // balloc's bit address of block b + bi.
  lemma UsedAt(sb: Super, d: Disk, b: nat, bi: nat)
    requires b % BPB == 0 && bi < BPB && BitBlock(sb, b + bi) < |d|
    ensures b / BPB + sb.bmapstart < |d|
    ensures Used(sb, d, b + bi) <==> Bit(d[b / BPB + sb.bmapstart][bi / 8], bi % 8)
  {
    BitAddress(b, bi);
  }

  lemma BitAddress(b: nat, bi: nat)
    requires b % BPB == 0 && bi < BPB
    ensures (b + bi) / BPB == b / BPB && (b + bi) % BPB == bi
  {
  }

  lemma GrewAddr(sb: Super, d: Disk, inodes: seq<Inode>, owner: map<nat, Place>, i: nat, k: nat, a: nat)
    requires Shaped(sb, d, inodes) && Owned(sb, d, inodes, owner)
    requires i < |inodes| && k <= INDIRECT && inodes[i].addrs[k] == 0
    requires sb.datastart <= a < sb.size && a !in owner
    ensures var d', inodes' := Balloced(sb, d, a), inodes[i := inodes[i].(addrs := inodes[i].addrs[k := a])];
            var owner' := owner[a := Place(i, k)];
            && Shaped(sb, d', inodes') && Owned(sb, d', inodes', owner')
            && Grew(d, inodes, owner, d', inodes', owner', i, {k})
            && OneSlotChanged(d, inodes, d', inodes', i, k, a)
  {
    AssignAddr(sb, d, inodes, owner, i, k, a);
    BallocedBitmap(sb, d, owner, a, Place(i, k));
  }

  lemma GrewEntry(sb: Super, d: Disk, inodes: seq<Inode>, owner: map<nat, Place>, i: nat, k: nat, a: nat)
    requires Shaped(sb, d, inodes) && Owned(sb, d, inodes, owner)
    requires i < |inodes| && INDIRECT < k < NSLOTS && inodes[i].addrs[INDIRECT] != 0
    requires Slot(d, inodes[i], k) == 0
    requires sb.datastart <= a < sb.size && a !in owner
    ensures var ind := inodes[i].addrs[INDIRECT];
            && sb.datastart <= ind < sb.size && ind != a && Balloced(sb, d, a)[ind] == d[ind]
            && var d', owner' := Balloced(sb, d, a)[ind := PutEntry(d[ind], k - 13, a)], owner[a := Place(i, k)];
            && Shaped(sb, d', inodes) && Owned(sb, d', inodes, owner')
            && Grew(d, inodes, owner, d', inodes, owner', i, {k})
            && Slot(d', inodes[i], k) == a
  {
    AssignEntry(sb, d, inodes, owner, i, k, a);
    BallocedBitmap(sb, d, owner, a, Place(i, k));
    var ind := inodes[i].addrs[INDIRECT];
    SlotInData(sb, d, inodes, owner, i, INDIRECT);
    assert owner[ind] == Place(i, INDIRECT);
  }

  // ----- file contents -----

  // Byte p of a file.
  function ByteAt(d: Disk, ip: Inode, p: nat): (x: Byte)
    requires |ip.addrs| == NDIRECT + 1
  {
    if p / BSIZE < MAXFILE && FileBlock(d, ip, p / BSIZE) < |d| then d[FileBlock(d, ip, p / BSIZE)][p % BSIZE] else 0
  }

  function Content(d: Disk, ip: Inode): (s: seq<Byte>)
    requires |ip.addrs| == NDIRECT + 1
    ensures |s| == ip.size
  {
    Bytes(d, ip, ip.size)
  }

  function Bytes(d: Disk, ip: Inode, n: nat): (s: seq<Byte>)
    requires |ip.addrs| == NDIRECT + 1
    ensures |s| == n
  {
    if n == 0 then [] else Bytes(d, ip, n - 1) + [ByteAt(d, ip, n - 1)]
  }

  /** The contents, byte by byte. */
  lemma {:induction false} BytesAt(d: Disk, ip: Inode, n: nat)
    requires |ip.addrs| == NDIRECT + 1
    ensures forall p: nat :: p < n ==> Bytes(d, ip, n)[p] == ByteAt(d, ip, p)
  {
    if n > 0 {
      BytesAt(d, ip, n - 1);
    }
  }

  // s written over c from position off on, past its end if need be.
  function Splice(c: seq<Byte>, off: nat, s: seq<Byte>): (r: seq<Byte>)
    requires off <= |c|
  {
    c[..off] + s + (if off + |s| < |c| then c[off + |s|..] else [])
  }

  ghost predicate Mapped(d: Disk, inodes: seq<Inode>, j: nat, bn: nat) {
    j < |inodes| && bn < MAXFILE && |inodes[j].addrs| == NDIRECT + 1 && FileBlock(d, inodes[j], bn) != 0
  }

  // Every mapped block of every file stays where it is and keeps its bytes, except
  // bytes [lo, hi) of file i; sizes and other inodes do not change.
  ghost predicate KeptBut(d: Disk, inodes: seq<Inode>, d': Disk, inodes': seq<Inode>, i: nat, lo: nat, hi: nat) {
    && |inodes'| == |inodes| && i < |inodes|
    && (forall j :: 0 <= j < |inodes| && j != i ==> inodes'[j] == inodes[j])
    && inodes'[i].size == inodes[i].size
    && (forall j: nat, bn: nat :: Mapped(d, inodes, j, bn) ==>
        Mapped(d', inodes', j, bn) && FileBlock(d', inodes'[j], bn) == FileBlock(d, inodes[j], bn))
    && (forall j: nat, p: nat :: Mapped(d, inodes, j, p / BSIZE) && !(j == i && lo <= p < hi) ==>
        Mapped(d', inodes', j, p / BSIZE) && ByteAt(d', inodes'[j], p) == ByteAt(d, inodes[j], p))
  }

  lemma GrewKeeps(sb: Super, d: Disk, inodes: seq<Inode>, owner: map<nat, Place>,
                  d': Disk, inodes': seq<Inode>, owner': map<nat, Place>, i: nat, slots: set<nat>)
    requires Shaped(sb, d, inodes) && Owned(sb, d, inodes, owner)
    requires Shaped(sb, d', inodes') && Owned(sb, d', inodes', owner')
    requires Grew(d, inodes, owner, d', inodes', owner', i, slots)
    ensures KeptBut(d, inodes, d', inodes', i, 0, 0)
  {
    GrewMeans(d, inodes, owner, d', inodes', owner', i, slots);
    forall j: nat, bn: nat | Mapped(d, inodes, j, bn)
      ensures Mapped(d', inodes', j, bn) && FileBlock(d', inodes'[j], bn) == FileBlock(d, inodes[j], bn)
      ensures FileBlock(d, inodes[j], bn) < |d| && d'[FileBlock(d, inodes[j], bn)] == d[FileBlock(d, inodes[j], bn)]
    {
      SlotInData(sb, d, inodes, owner, j, SlotOf(bn));
      OwnerNames(sb, d', inodes', owner', FileBlock(d, inodes[j], bn));
    }
  }

  /** Overwriting part of one mapped block changes those bytes of that file only. */
  lemma WriteChanges(sb: Super, d: Disk, inodes: seq<Inode>, owner: map<nat, Place>, i: nat, cur: nat, data: seq<Byte>, blk: Block)
    requires Shaped(sb, d, inodes) && Owned(sb, d, inodes, owner)
    requires Mapped(d, inodes, i, cur / BSIZE) && cur % BSIZE + |data| <= BSIZE
    requires var a, o := FileBlock(d, inodes[i], cur / BSIZE), cur % BSIZE;
             a < |d| && blk == d[a][..o] + data + d[a][o + |data|..]
    ensures var d' := d[FileBlock(d, inodes[i], cur / BSIZE) := blk];
            && Shaped(sb, d', inodes) && Owned(sb, d', inodes, owner)
            && KeptBut(d, inodes, d', inodes, i, cur, cur + |data|)
            && Mapped(d', inodes, i, cur / BSIZE)
            && forall p :: cur <= p < cur + |data| ==> ByteAt(d', inodes[i], p) == data[p - cur]
  {
    var a, bn, o := FileBlock(d, inodes[i], cur / BSIZE), cur / BSIZE, cur % BSIZE;
    var d' := d[a := blk];
    SlotInData(sb, d, inodes, owner, i, SlotOf(bn));
    WriteKeepsOwned(sb, d, inodes, owner, a, blk);
    forall j: nat, l: nat | Mapped(d, inodes, j, l)
      ensures FileBlock(d', inodes[j], l) == FileBlock(d, inodes[j], l)
    {
    }
    forall j: nat, p: nat | Mapped(d, inodes, j, p / BSIZE) && !(j == i && cur <= p < cur + |data|)
      ensures ByteAt(d', inodes[j], p) == ByteAt(d, inodes[j], p)
    {
      SlotInData(sb, d, inodes, owner, j, SlotOf(p / BSIZE));
      if j == i && p / BSIZE == bn {
        assert p % BSIZE < o || p % BSIZE >= o + |data|;
      }
    }
    forall p | cur <= p < cur + |data| ensures ByteAt(d', inodes[i], p) == data[p - cur] {
      assert p / BSIZE == bn && p % BSIZE == o + (p - cur);
    }
  }

  // Rounds of writei's loop so far and the bitmap and data blocks they logged.
  datatype Tally = Tally(rounds: nat, bits: set<nat>, data: set<nat>)

  function NewIndirect(ip: Inode, ip': Inode): (k: nat)
    requires |ip.addrs| == |ip'.addrs| == NDIRECT + 1
  {
    if ip.addrs[INDIRECT] == 0 && ip'.addrs[INDIRECT] != 0 then 1 else 0
  }

  lemma CardUnion(a: set<nat>, b: set<nat>)
    ensures |a + b| <= |a| + |b|
  {
    assert a + b == a + (b - a);
    assert |a + (b - a)| == |a| + |b - a|;
    assert |b| == |b - a| + |b * a| by {
      assert b == (b - a) + (b * a);
    }
  }

  const MAXOPBLOCKS: nat := 10
  // filewrite's max.
  const MAXCHUNK: nat := ((MAXOPBLOCKS - 1 - 1 - 2) / 2) * BSIZE

  /** The transaction bound. In a file without holes an unaligned write starts in a
      mapped block, so a chunk logs at most 4 data, 4 bitmap, 1 indirect and 1 inode
      block. */
  lemma LogBound(logged0: set<nat>, logged: set<nat>, t: Tally, d0: Disk, inodes0: seq<Inode>, i: nat, off: nat, n: nat, ind: nat, iblock: nat)
    requires i < |inodes0| && HoleFree(d0, inodes0[i]) && off <= inodes0[i].size
    requires off + n <= MAXFILE * BSIZE && t.rounds <= BlocksTouched(off, n)
    requires logged <= logged0 + t.bits + t.data + Some(ind) && |t.data| <= t.rounds
    requires var first := if Mapped(d0, inodes0, i, off / BSIZE) then 1 else 0;
             |t.bits| <= (if t.rounds == 0 then 0 else t.rounds - first) + 1
    ensures n <= MAXCHUNK ==> |logged + {iblock} - logged0| <= MAXOPBLOCKS
  {
    if off % BSIZE != 0 {
      assert (off / BSIZE) * BSIZE < inodes0[i].size;
      assert Mapped(d0, inodes0, i, off / BSIZE);
    }
    var all := t.bits + t.data + Some(ind) + {iblock};
    CardUnion(t.bits, t.data);
    CardUnion(t.bits + t.data, Some(ind));
    CardUnion(t.bits + t.data + Some(ind), {iblock});
    CardSubset(logged + {iblock} - logged0, all);
  }

  // A file of eleven and a half blocks, all direct.
  function ShortOfIndirect(): (f: Inode) {
    Inode(12 * BSIZE - 512, [101, 102, 103, 104, 105, 106, 107, 108, 109, 110, 111, 112, 0])
  }

  /** The hypotheses admit ten. Appending a whole chunk to such a file touches its last direct block and three
      new ones behind a new indirect block; if the four new blocks lie under four bitmap blocks these, the
      four data blocks, the indirect block and the inode's block are ten, and nothing in LogBound excludes it. */
  lemma LogBoundReached(d: Disk)
    ensures var f, n := ShortOfIndirect(), MAXCHUNK;
            var t := Tally(4, {50, 51, 52, 53}, {112, 9000, 17000, 25000});
            var logged := t.bits + t.data + Some(30000);
            && HoleFree(d, f) && Mapped(d, [f], 0, f.size / BSIZE)
            && t.rounds == BlocksTouched(f.size, n) && |t.data| == t.rounds && |t.bits| == t.rounds - 1 + 1
            && |logged + {33}| == MAXOPBLOCKS
  {
    ShortIsHoleFree(d);
    TenBlocks();
  }

  lemma ShortIsHoleFree(d: Disk)
    ensures var f := ShortOfIndirect(); HoleFree(d, f) && Mapped(d, [f], 0, f.size / BSIZE)
  {
    var f := ShortOfIndirect();
    forall bn: nat | bn < 12 ensures FileBlock(d, f, bn) != 0 {
      assert FileBlock(d, f, bn) == f.addrs[bn];
    }
  }

  lemma TenBlocks()
    ensures |{50, 51, 52, 53}| == 4 && |{112, 9000, 17000, 25000}| == 4
    ensures |{50, 51, 52, 53} + {112, 9000, 17000, 25000} + Some(30000) + {33}| == 10
  {
    assert {50, 51, 52, 53} + {112, 9000, 17000, 25000} + Some(30000) + {33} == {50, 51, 52, 53, 112, 9000, 17000, 25000, 30000, 33};
  }

  lemma CardSubset(a: set<nat>, b: set<nat>)
    requires a <= b
    ensures |a| <= |b|
  {
    assert b == a + (b - a);
    assert |a + (b - a)| == |a| + |b - a|;
  }

  // How many blocks the bytes [off, off + n) lie in.
  function BlocksTouched(off: nat, n: nat): (k: nat) {
    if n == 0 then 0 else (off + n - 1) / BSIZE - off / BSIZE + 1
  }

  // After some rounds of writei's loop, each but the last up to a block boundary.
  ghost predicate RoundsDone(off: nat, n: nat, tot: nat, rounds: nat) {
    && tot <= n
    && (rounds == 0 <==> tot == 0)
    && (tot > 0 ==> rounds == BlocksTouched(off, tot))
    && (0 < tot < n ==> (off + tot) % BSIZE == 0)
  }

  lemma RoundStep(off: nat, n: nat, tot: nat, rounds: nat)
    requires RoundsDone(off, n, tot, rounds) && tot < n
    ensures var m := if n - tot < BSIZE - (off + tot) % BSIZE then n - tot else BSIZE - (off + tot) % BSIZE;
            RoundsDone(off, n, tot + m, rounds + 1)
  {
  }

  lemma RoundsBound(off: nat, n: nat, tot: nat, rounds: nat)
    requires RoundsDone(off, n, tot, rounds)
    ensures rounds <= BlocksTouched(off, n)
    ensures tot < n ==> rounds < BlocksTouched(off, n)
  {
  }

  // A slice inside one block is a slice of the contents.
  lemma SliceOfBlock(d: Disk, ip: Inode, cur: nat, m: nat)
    requires |ip.addrs| == NDIRECT + 1 && cur / BSIZE < MAXFILE && FileBlock(d, ip, cur / BSIZE) < |d|
    requires cur % BSIZE + m <= BSIZE && cur + m <= ip.size
    ensures d[FileBlock(d, ip, cur / BSIZE)][cur % BSIZE..cur % BSIZE + m] == Content(d, ip)[cur..cur + m]
  {
    BytesAt(d, ip, ip.size);
    forall p | cur <= p < cur + m
      ensures Content(d, ip)[p] == d[FileBlock(d, ip, cur / BSIZE)][cur % BSIZE + (p - cur)]
    {
      assert p / BSIZE == cur / BSIZE && p % BSIZE == cur % BSIZE + (p - cur);
    }
  }

  // The file holds the contents c0 with the first k bytes of src spliced in at off0; an
  // offset past the end leaves it as it was.
  ghost predicate Spliced(c: seq<Byte>, c0: seq<Byte>, off0: nat, src: seq<Byte>, k: nat) {
    k <= |src| && if off0 > |c0| then k == 0 && c == c0 else c == Splice(c0, off0, src[..k])
  }

  lemma SplicedNone(c0: seq<Byte>, off0: nat, src: seq<Byte>)
    ensures Spliced(c0, c0, off0, src, 0)
  {
  }

  // Splicing in consecutive pieces is splicing in their concatenation.
  lemma SplicedMore(c: seq<Byte>, c': seq<Byte>, c0: seq<Byte>, off0: nat, src: seq<Byte>, k: nat, n1: nat, r: nat)
    requires Spliced(c, c0, off0, src, k) && off0 + k <= |c| && k + n1 <= |src| && r <= n1
    requires c' == Splice(c, off0 + k, src[k..k + n1][..r])
    ensures Spliced(c', c0, off0, src, k + r)
  {
    assert src[k..k + n1][..r] == src[k..k + r];
  }

  // The same after a chunk that may have failed.
  lemma ChunkSpliced(c: seq<Byte>, c': seq<Byte>, c0: seq<Byte>, off0: nat, src: seq<Byte>, k: nat, n1: nat, r: int)
    requires Spliced(c, c0, off0, src, k) && k + n1 <= |src| && r <= n1
    requires r < 0 ==> c' == c
    requires r >= 0 ==> off0 + k <= |c| && c' == Splice(c, off0 + k, src[k..k + n1][..r])
    ensures Spliced(c', c0, off0, src, if r > 0 then k + r else k)
  {
    if r >= 0 {
      SplicedMore(c, c', c0, off0, src, k, n1, r);
    }
  }

  lemma SliceJoin(c: seq<Byte>, lo: nat, mid: nat, hi: nat)
    requires lo <= mid <= hi <= |c|
    ensures c[lo..mid] + c[mid..hi] == c[lo..hi]
  {
  }

  // Other files are as they were.
  ghost predicate OthersSame(d: Disk, inodes: seq<Inode>, d': Disk, inodes': seq<Inode>, i: nat) {
    && |inodes'| == |inodes|
    && forall j :: 0 <= j < |inodes| && j != i && HoleFree(d, inodes[j]) ==>
         && inodes'[j] == inodes[j] && HoleFree(d', inodes'[j])
         && Content(d', inodes'[j]) == Content(d, inodes[j])
  }

  lemma OthersSameTrans(d: Disk, inodes: seq<Inode>, d1: Disk, inodes1: seq<Inode>, d2: Disk, inodes2: seq<Inode>, i: nat)
    requires OthersSame(d, inodes, d1, inodes1, i) && OthersSame(d1, inodes1, d2, inodes2, i)
    ensures OthersSame(d, inodes, d2, inodes2, i)
  {
  }

  datatype FilePart = OtherFiles | Data

  ghost predicate FilePartOk(d0: Disk, inodes0: seq<Inode>, d: Disk, inodes: seq<Inode>, i: nat, c0: seq<Byte>, off0: nat, src: seq<Byte>,
                             k: nat, part: FilePart) {
    match part
    case OtherFiles => OthersSame(d0, inodes0, d, inodes, i)
    case Data => i < |inodes| && HoleFree(d, inodes[i]) && Spliced(Content(d, inodes[i]), c0, off0, src, k)
  }

  // filewrite has got k bytes of src into file i, which held c0, and left the other files alone.
  ghost predicate Filled(d0: Disk, inodes0: seq<Inode>, d: Disk, inodes: seq<Inode>, i: nat, c0: seq<Byte>, off0: nat, src: seq<Byte>, k: nat) {
    forall part {:trigger FilePartOk(d0, inodes0, d, inodes, i, c0, off0, src, k, part)} ::
      FilePartOk(d0, inodes0, d, inodes, i, c0, off0, src, k, part)
  }

  lemma FilledMeans(d0: Disk, inodes0: seq<Inode>, d: Disk, inodes: seq<Inode>, i: nat, c0: seq<Byte>, off0: nat, src: seq<Byte>, k: nat)
    ensures Filled(d0, inodes0, d, inodes, i, c0, off0, src, k) <==>
      && OthersSame(d0, inodes0, d, inodes, i)
      && i < |inodes| && HoleFree(d, inodes[i]) && Spliced(Content(d, inodes[i]), c0, off0, src, k)
  {
    if Filled(d0, inodes0, d, inodes, i, c0, off0, src, k) {
      assert FilePartOk(d0, inodes0, d, inodes, i, c0, off0, src, k, OtherFiles);
      assert FilePartOk(d0, inodes0, d, inodes, i, c0, off0, src, k, Data);
    }
  }

  lemma ChunkFilled(d0: Disk, inodes0: seq<Inode>, d: Disk, inodes: seq<Inode>, d': Disk, inodes': seq<Inode>,
                    i: nat, c0: seq<Byte>, off0: nat, src: seq<Byte>, k: nat, n1: nat, r: int)
    requires Filled(d0, inodes0, d, inodes, i, c0, off0, src, k) && k + n1 <= |src| && r <= n1
    requires i < |inodes| && HoleFree(d, inodes[i])
    requires OthersSame(d, inodes, d', inodes', i) && i < |inodes'| && HoleFree(d', inodes'[i])
    requires var c, c' := Content(d, inodes[i]), Content(d', inodes'[i]);
             if r < 0 then c' == c else off0 + k <= |c| && c' == Splice(c, off0 + k, src[k..k + n1][..r])
    ensures Filled(d0, inodes0, d', inodes', i, c0, off0, src, if r > 0 then k + r else k)
  {
    FilledMeans(d0, inodes0, d, inodes, i, c0, off0, src, k);
    OthersSameTrans(d0, inodes0, d, inodes, d', inodes', i);
    ChunkSpliced(Content(d, inodes[i]), Content(d', inodes'[i]), c0, off0, src, k, n1, r);
    FilledMeans(d0, inodes0, d', inodes', i, c0, off0, src, if r > 0 then k + r else k);
  }

  // writei has copied the first tot bytes of src to offset off of file i.
  ghost predicate Written(d: Disk, inodes: seq<Inode>, d': Disk, inodes': seq<Inode>, i: nat, off: nat, src: seq<Byte>, tot: nat) {
    && tot <= |src|
    && KeptBut(d, inodes, d', inodes', i, off, off + tot)
    && forall p: nat :: off <= p < off + tot ==>
         Mapped(d', inodes', i, p / BSIZE) && ByteAt(d', inodes'[i], p) == src[p - off]
  }

  lemma WrittenStep(d: Disk, inodes: seq<Inode>, d1: Disk, inodes1: seq<Inode>, d2: Disk, inodes2: seq<Inode>,
                    i: nat, off: nat, src: seq<Byte>, tot: nat, m: nat)
    requires Written(d, inodes, d1, inodes1, i, off, src, tot) && tot + m <= |src|
    requires KeptBut(d1, inodes1, d2, inodes2, i, off + tot, off + tot + m)
    requires (off + tot) % BSIZE + m <= BSIZE
    requires m > 0 ==> Mapped(d2, inodes2, i, (off + tot) / BSIZE)
    requires var data := src[tot..tot + m];
             forall p :: off + tot <= p < off + tot + |data| ==> ByteAt(d2, inodes2[i], p) == data[p - (off + tot)]
    ensures Written(d, inodes, d2, inodes2, i, off, src, tot + m)
  {
    forall p: nat | off <= p < off + tot + m
      ensures Mapped(d2, inodes2, i, p / BSIZE) && ByteAt(d2, inodes2[i], p) == src[p - off]
    {
      if p >= off + tot {
        assert p / BSIZE == (off + tot) / BSIZE;
      }
    }
  }

  // Byte p of the file after the copy.
  lemma WrittenByte(d: Disk, inodes: seq<Inode>, d': Disk, inodes': seq<Inode>, i: nat, off: nat, src: seq<Byte>, tot: nat, p: nat)
    requires Written(d, inodes, d', inodes', i, off, src, tot) && |inodes'[i].addrs| == NDIRECT + 1
    requires HoleFree(d, inodes[i]) && (p < inodes[i].size || off <= p < off + tot)
    ensures Mapped(d', inodes', i, p / BSIZE)
    ensures ByteAt(d', inodes'[i], p) == if off <= p < off + tot then src[p - off] else ByteAt(d, inodes[i], p)
  {
    if !(off <= p < off + tot) {
      assert p / BSIZE * BSIZE <= p;
      assert Mapped(d, inodes, i, p / BSIZE);
    }
  }

  /** Setting the size after the copy: the file's contents are the old ones with the
      copied bytes spliced in, and still without holes. */
  lemma WrittenContent(d: Disk, inodes: seq<Inode>, d': Disk, inodes': seq<Inode>, i: nat, off: nat, src: seq<Byte>, tot: nat, ip: Inode)
    requires Written(d, inodes, d', inodes', i, off, src, tot) && |inodes'[i].addrs| == NDIRECT + 1
    requires HoleFree(d, inodes[i]) && off <= inodes[i].size && off + tot <= MAXFILE * BSIZE
    requires ip == inodes'[i].(size := if off + tot > inodes[i].size then off + tot else inodes[i].size)
    ensures HoleFree(d', ip)
    ensures Content(d', ip) == Splice(Content(d, inodes[i]), off, src[..tot])
  {
    forall bn: nat | bn * BSIZE < ip.size ensures FileBlock(d', ip, bn) != 0 {
      assert (bn * BSIZE) / BSIZE == bn;
      WrittenByte(d, inodes, d', inodes', i, off, src, tot, bn * BSIZE);
    }
    var c, c' := Splice(Content(d, inodes[i]), off, src[..tot]), Content(d', ip);
    BytesAt(d, inodes[i], inodes[i].size);
    BytesAt(d', ip, ip.size);
    forall p: nat | p < ip.size ensures c'[p] == c[p] {
      WrittenByte(d, inodes, d', inodes', i, off, src, tot, p);
      assert ByteAt(d', ip, p) == ByteAt(d', inodes'[i], p);
    }
  }

  lemma SizeKeepsOwned(sb: Super, d: Disk, inodes: seq<Inode>, owner: map<nat, Place>, i: nat, size: nat)
    requires Shaped(sb, d, inodes) && Owned(sb, d, inodes, owner) && i < |inodes|
    ensures var inodes' := inodes[i := inodes[i].(size := size)];
            Shaped(sb, d, inodes') && Owned(sb, d, inodes', owner)
  {
    var inodes' := inodes[i := inodes[i].(size := size)];
    forall b | b in owner ensures NamedBy(d, inodes', b, owner[b]) {
      OwnerNames(sb, d, inodes, owner, b);
    }
    forall j, k | 0 <= j < |inodes| && 0 <= k < NSLOTS ensures OwnsSlot(d, inodes'[j], j, k, owner) {
      SlotInData(sb, d, inodes, owner, j, k);
    }
  }

  lemma OthersKept(d: Disk, inodes: seq<Inode>, d': Disk, inodes': seq<Inode>, i: nat, lo: nat, hi: nat, ip: Inode)
    requires KeptBut(d, inodes, d', inodes', i, lo, hi)
    ensures OthersSame(d, inodes, d', inodes'[i := ip], i)
  {
    forall j | 0 <= j < |inodes| && j != i && HoleFree(d, inodes[j])
      ensures HoleFree(d', inodes'[j]) && Content(d', inodes'[j]) == Content(d, inodes[j])
    {
      OtherKept(d, inodes, d', inodes', i, lo, hi, j);
    }
  }

  lemma OtherKept(d: Disk, inodes: seq<Inode>, d': Disk, inodes': seq<Inode>, i: nat, lo: nat, hi: nat, j: nat)
    requires KeptBut(d, inodes, d', inodes', i, lo, hi) && j < |inodes| && j != i && HoleFree(d, inodes[j])
    ensures HoleFree(d', inodes'[j]) && Content(d', inodes'[j]) == Content(d, inodes[j])
  {
    forall bn: nat | bn * BSIZE < inodes[j].size ensures FileBlock(d', inodes'[j], bn) != 0 {
      assert Mapped(d, inodes, j, bn);
    }
    BytesAt(d, inodes[j], inodes[j].size);
    BytesAt(d', inodes'[j], inodes[j].size);
    forall p: nat | p < inodes[j].size ensures ByteAt(d', inodes'[j], p) == ByteAt(d, inodes[j], p) {
      assert p / BSIZE * BSIZE <= p;
      assert Mapped(d, inodes, j, p / BSIZE);
    }
    assert Content(d', inodes'[j]) == Content(d, inodes[j]);
  }

  // ----- truncation -----

  // The owners left when slots lo..hi of file i are emptied.
  ghost function Without(owner: map<nat, Place>, i: nat, lo: nat, hi: nat): (r: map<nat, Place>) {
    map b | b in owner && !(owner[b].inum == i && lo <= owner[b].slot < hi) :: owner[b]
  }

  ghost predicate DataSame(sb: Super, d: Disk, d': Disk) {
    |d'| == |d| && forall b: nat :: sb.datastart <= b < |d| ==> d'[b] == d[b]
  }

  function ZeroBelow(addrs: seq<nat>, k: nat): (r: seq<nat>) {
    seq(|addrs|, l requires 0 <= l < |addrs| => if l < k then 0 else addrs[l])
  }

  lemma WithoutNone(owner: map<nat, Place>, i: nat)
    ensures Without(owner, i, 0, 0) == Without(owner, i, 13, 13) == owner
  {
  }

  lemma WithoutMore(owner: map<nat, Place>, i: nat, lo: nat, mid: nat, hi: nat)
    requires lo <= mid <= hi
    ensures Without(Without(owner, i, lo, mid), i, mid, hi) == Without(owner, i, lo, hi)
    ensures Without(Without(owner, i, mid, hi), i, lo, mid) == Without(owner, i, lo, hi)
  {
  }

  lemma OneEntryZeroed(b: Block, j: nat)
    requires j < NINDIRECT
    ensures forall l: nat :: l < NINDIRECT ==> Entry(PutEntry(b, j, 0), l) == if l == j then 0 else Entry(b, l)
  {
    forall l: nat | l < NINDIRECT ensures Entry(PutEntry(b, j, 0), l) == if l == j then 0 else Entry(b, l) {
      EntryOfPutEntry(b, j, 0, l);
    }
  }

  // The disk with one entry of an indirect block freed and emptied.
  ghost function Emptied(sb: Super, d: Disk, ind: nat, j: nat): (d': Disk)
    requires sb.Valid() && |d| == sb.size && ind < |d| && j < NINDIRECT && Entry(d[ind], j) < sb.size
  {
    var a := Entry(d[ind], j);
    if a == 0 then d else PutUsed(sb, d, a, false)[ind := PutEntry(d[ind], j, 0)]
  }

  lemma EmptyEntry(sb: Super, d: Disk, inodes: seq<Inode>, owner: map<nat, Place>, i: nat, j: nat)
    requires Shaped(sb, d, inodes) && Owned(sb, d, inodes, owner) && i < |inodes| && j < NINDIRECT
    requires inodes[i].addrs[INDIRECT] != 0
    ensures var ind := inodes[i].addrs[INDIRECT];
            && sb.datastart <= ind < sb.size
            && var a := Entry(d[ind], j);
            && a < sb.size && (a != 0 ==> sb.datastart <= a && Used(sb, d, a) && a != ind)
            && var d', owner' := Emptied(sb, d, ind, j), if a == 0 then owner else owner - {a};
            && Shaped(sb, d', inodes) && Owned(sb, d', inodes, owner')
            && owner' == Without(owner, i, 13 + j, 14 + j)
            && (forall l: nat :: l < NINDIRECT ==> Entry(d'[ind], l) == if l == j then 0 else Entry(d[ind], l))
  {
    var ind := inodes[i].addrs[INDIRECT];
    SlotInData(sb, d, inodes, owner, i, INDIRECT);
    SlotInData(sb, d, inodes, owner, i, 13 + j);
    NoneBefore(sb, d, inodes, owner, i, 13 + j);
    if Entry(d[ind], j) != 0 {
      ReleaseEntry(sb, d, inodes, owner, i, 13 + j);
      OneEntryZeroed(d[ind], j);
    }
  }

  lemma NoIndirect(sb: Super, d: Disk, inodes: seq<Inode>, owner: map<nat, Place>, i: nat)
    requires Shaped(sb, d, inodes) && Owned(sb, d, inodes, owner) && i < |inodes| && inodes[i].addrs[INDIRECT] == 0
    ensures Without(owner, i, INDIRECT, NSLOTS) == owner
  {
    forall b | b in owner && owner[b].inum == i ensures owner[b].slot < INDIRECT {
      OwnerNames(sb, d, inodes, owner, b);
    }
  }

  function NoAddrs(): (a: seq<nat>)
    ensures |a| == NDIRECT + 1 && forall k :: 0 <= k < |a| ==> a[k] == 0
  {
    seq(NDIRECT + 1, _ => 0)
  }

  lemma AllSlots(sb: Super, d: Disk, inodes: seq<Inode>, owner: map<nat, Place>, i: nat)
    requires Shaped(sb, d, inodes) && Owned(sb, d, inodes, owner) && i < |inodes|
    ensures Without(owner, i, 0, NSLOTS) == map b | b in owner && owner[b].inum != i :: owner[b]
  {
    forall b | b in owner ensures owner[b].slot < NSLOTS {
      OwnerNames(sb, d, inodes, owner, b);
    }
  }

  // Freeing a block on two disks that differ in one data block keeps them so.
  lemma FreeBoth(sb: Super, d: Disk, e: Disk, owner: map<nat, Place>, ind: nat, a: nat, blk: Block)
    requires sb.Valid() && |d| == |e| == sb.size && sb.datastart <= ind < sb.size && sb.datastart <= a < sb.size
    requires e == d[ind := e[ind]] && Used(sb, d, a) && BitmapIs(sb, d, owner)
    ensures Used(sb, e, a) && DataSame(sb, e, PutUsed(sb, e, a, false))
    ensures PutUsed(sb, e, a, false) == PutUsed(sb, d, a, false)[ind := blk][ind := e[ind]]
    ensures PutUsed(sb, e, a, false)[ind] == e[ind]
  {
  }

  // A slot owns the block it holds, if any, and nothing else.
  lemma NoneBefore(sb: Super, d: Disk, inodes: seq<Inode>, owner: map<nat, Place>, i: nat, k: nat)
    requires Shaped(sb, d, inodes) && Owned(sb, d, inodes, owner) && i < |inodes| && k < NSLOTS
    ensures var a := Slot(d, inodes[i], k);
            Without(owner, i, k, k + 1) == if a == 0 then owner else owner - {a}
  {
    var a := Slot(d, inodes[i], k);
    SlotInData(sb, d, inodes, owner, i, k);
    forall b | b in owner && owner[b] == Place(i, k) ensures b == a {
      OwnerNames(sb, d, inodes, owner, b);
    }
  }

  class Fs {
    const sb: Super
    var disk: Disk
    var inodes: seq<Inode>
    ghost var owner: map<nat, Place>
    ghost var logged: set<nat>   // the blocks log_written by the current operation

    ghost predicate Valid()
      reads this
    {
      Shaped(sb, disk, inodes) && Owned(sb, disk, inodes, owner)
    }

    /** A freshly made, empty file system: the bitmap marks the blocks before the data
        area, one bit at a time as mkfs does. */
    constructor Mkfs(s: Super)
      requires s.Valid()
      ensures sb == s && Valid() && owner == map[] && logged == {}
      ensures forall i :: 0 <= i < |inodes| ==> inodes[i] == Inode(0, NoAddrs()) && HoleFree(disk, inodes[i])
    {
      sb := s;
      disk := seq(s.size, _ => Zeroed());
      inodes := seq(s.ninodes, _ => Inode(0, NoAddrs()));
      owner, logged := map[], {};
      new;
      var b := 0;
      assert forall x: nat :: !Bit(0, x) by {
        forall x: nat {
          BitOfZero(x);
        }
      }
      while b < sb.datastart
        invariant 0 <= b <= sb.datastart && |disk| == sb.size
        invariant inodes == seq(sb.ninodes, _ => Inode(0, NoAddrs())) && owner == map[] && logged == {}
        invariant forall x: nat :: x < sb.size ==> (Used(sb, disk, x) <==> x < b)
      {
        ghost var d := disk;
        var bi, c := b % BPB, b / BPB + sb.bmapstart;
        disk := disk[c := disk[c][bi / 8 := PutByteBit(disk[c][bi / 8], bi % 8, true)]];
        assert disk == PutUsed(sb, d, b, true);
        forall x: nat | x < sb.size ensures Used(sb, disk, x) <==> x < b + 1 {
          UsedOfPutUsed(sb, d, b, true, x);
        }
        b := b + 1;
      }
    }

    /** balloc finds the first free block, marks it and zeroes it; it fails exactly
        when every block is in use. */
    method Balloc() returns (r: nat)
      requires sb.Valid() && |disk| == sb.size && BitmapIs(sb, disk, owner)
      modifies this`disk, this`logged
      ensures r == 0 <==> Full(sb, owner)
      ensures r == 0 ==> disk == old(disk) && logged == old(logged)
      ensures r != 0 ==>
                && sb.datastart <= r < sb.size && r !in owner
                && (forall b: nat :: sb.datastart <= b < r ==> b in owner)
                && disk == Balloced(sb, old(disk), r)
                && logged == old(logged) + {BitBlock(sb, r), r}
    {
      r := FindFree();
      if r == sb.size {
        r := 0;
        return;
      }
      var bi, c := r % BPB, r / BPB + sb.bmapstart;
      disk := disk[c := disk[c][bi / 8 := PutByteBit(disk[c][bi / 8], bi % 8, true)]];
      disk := disk[r := Zeroed()];
      logged := logged + {c, r};
    }

    // balloc's scan over the bitmap blocks; sb.size when there is no free block.
    method FindFree() returns (r: nat)
      requires sb.Valid() && |disk| == sb.size && BitmapIs(sb, disk, owner)
      ensures r <= sb.size && forall b: nat :: sb.datastart <= b < r ==> b in owner
      ensures r < sb.size ==> sb.datastart <= r && r !in owner
    {
      r := 0;
      while r < sb.size
        invariant r < sb.size ==> r % BPB == 0
        invariant r <= sb.size && forall b: nat :: sb.datastart <= b < r ==> b in owner
      {
        var b := r;
        var bi := ScanBits(b);
        r := b + bi;
        if bi < BPB {
          return;
        }
      }
    }

    // The bits of one bitmap block.
    method ScanBits(b: nat) returns (bi: nat)
      requires sb.Valid() && |disk| == sb.size && BitmapIs(sb, disk, owner)
      requires b % BPB == 0 && b < sb.size
      ensures bi <= BPB && b + bi <= sb.size
      ensures forall x: nat :: b <= x < b + bi && sb.datastart <= x ==> x in owner
      ensures bi < BPB && b + bi < sb.size ==> sb.datastart <= b + bi && b + bi !in owner
    {
      bi := 0;
      var c := b / BPB + sb.bmapstart;
      while bi < BPB && b + bi < sb.size
        invariant 0 <= bi <= BPB && b + bi <= sb.size
        invariant forall x: nat :: b <= x < b + bi && sb.datastart <= x ==> x in owner
      {
        UsedAt(sb, disk, b, bi);
        if !Bit(disk[c][bi / 8], bi % 8) {
          return;
        }
        bi := bi + 1;
      }
    }

    method Bfree(b: nat)
      requires sb.Valid() && |disk| == sb.size && b < sb.size
      requires Used(sb, disk, b)  // else panic "freeing free block"
      modifies this`disk, this`logged
      ensures disk == PutUsed(sb, old(disk), b, false)
      ensures logged == old(logged) + {BitBlock(sb, b)}
    {
      var bi, c := b % BPB, b / BPB + sb.bmapstart;
      disk := disk[c := disk[c][bi / 8 := PutByteBit(disk[c][bi / 8], bi % 8, false)]];
      logged := logged + {c};
    }

    // bmap on one of the addresses kept in the inode itself.
    method MapAddr(i: nat, k: nat) returns (addr: nat, ghost bits: set<nat>)
      requires Valid() && i < |inodes| && k <= INDIRECT
      modifies this`disk, this`inodes, this`owner, this`logged
      ensures Valid() && Grew(old(disk), old(inodes), old(owner), disk, inodes, owner, i, {k})
      ensures addr == inodes[i].addrs[k]
      ensures old(inodes)[i].addrs[k] != 0 ==>
                disk == old(disk) && inodes == old(inodes) && owner == old(owner) && logged == old(logged) && bits == {}
      ensures addr == 0 <==> old(inodes)[i].addrs[k] == 0 && Full(sb, old(owner))
      ensures addr == 0 ==> disk == old(disk) && inodes == old(inodes) && owner == old(owner) && logged == old(logged) && bits == {}
      ensures old(inodes)[i].addrs[k] == 0 ==> logged <= old(logged) + bits + Some(addr) && |bits| <= 1
      ensures old(inodes)[i].addrs[k] == 0 && addr != 0 ==> forall l :: 0 <= l < NSLOTS && l != k ==>
                Slot(disk, inodes[i], l) == Slot(old(disk), old(inodes)[i], l)
    {
      addr, bits := inodes[i].addrs[k], {};
      if addr == 0 {
        addr := Balloc();
        if addr == 0 {
          return;
        }
        bits := {BitBlock(sb, addr)};
        GrewAddr(sb, old(disk), inodes, owner, i, k, addr);
        inodes := inodes[i := inodes[i].(addrs := inodes[i].addrs[k := addr])];
        owner := owner[addr := Place(i, k)];
      }
    }

    // bmap on an entry of the indirect block.
    method MapEntry(i: nat, k: nat) returns (addr: nat, ghost bits: set<nat>)
      requires Valid() && i < |inodes| && INDIRECT < k < NSLOTS && inodes[i].addrs[INDIRECT] != 0
      modifies this`disk, this`owner, this`logged
      ensures Valid() && Grew(old(disk), inodes, old(owner), disk, inodes, owner, i, {k})
      ensures addr == Slot(disk, inodes[i], k)
      ensures Slot(old(disk), inodes[i], k) != 0 ==>
                disk == old(disk) && owner == old(owner) && logged == old(logged) && bits == {}
      ensures addr == 0 <==> Slot(old(disk), inodes[i], k) == 0 && Full(sb, old(owner))
      ensures addr == 0 ==> disk == old(disk) && owner == old(owner) && logged == old(logged) && bits == {}
      ensures logged == old(logged) || logged == old(logged) + bits + {addr, inodes[i].addrs[INDIRECT]}
      ensures |bits| <= 1
    {
      SlotInData(sb, disk, inodes, owner, i, INDIRECT);
      var ind := inodes[i].addrs[INDIRECT];
      addr, bits := Entry(disk[ind], k - 13), {};
      if addr == 0 {
        addr, bits := AllocEntry(i, k);
      }
    }

    // The missing entry case.
    method AllocEntry(i: nat, k: nat) returns (addr: nat, ghost bits: set<nat>)
      requires Valid() && i < |inodes| && INDIRECT < k < NSLOTS && inodes[i].addrs[INDIRECT] != 0
      requires Slot(disk, inodes[i], k) == 0
      modifies this`disk, this`owner, this`logged
      ensures Valid() && Grew(old(disk), inodes, old(owner), disk, inodes, owner, i, {k})
      ensures addr == Slot(disk, inodes[i], k)
      ensures addr == 0 <==> Full(sb, old(owner))
      ensures addr == 0 ==> disk == old(disk) && owner == old(owner) && logged == old(logged) && bits == {}
      ensures addr != 0 ==> logged == old(logged) + bits + {addr, inodes[i].addrs[INDIRECT]}
      ensures |bits| <= 1
    {
      bits := {};
      addr := Balloc();
      if addr != 0 {
        ghost var d := old(disk);
        GrewEntry(sb, d, inodes, owner, i, k, addr);
        var ind := inodes[i].addrs[INDIRECT];
        disk := disk[ind := PutEntry(disk[ind], k - 13, addr)];
        assert disk == Balloced(sb, d, addr)[ind := PutEntry(d[ind], k - 13, addr)];
        owner := owner[addr := Place(i, k)];
        bits := {BitBlock(sb, addr)};
        logged := logged + {ind};
        assert logged == old(logged) + bits + {addr, ind};
      }
    }

    /** bmap returns the block holding block bn of file i, allocating it (and the
        indirect block) when missing; it fails exactly when the block is missing and
        the disk is full, and whatever it allocated by then is owned by the file. */
    method Bmap(i: nat, bn: nat) returns (addr: nat, ghost bits: set<nat>)
      requires Valid() && i < |inodes| && bn < MAXFILE
      modifies this`disk, this`inodes, this`owner, this`logged
      ensures Valid() && Grew(old(disk), old(inodes), old(owner), disk, inodes, owner, i, {SlotOf(bn), INDIRECT})
      ensures addr == FileBlock(disk, inodes[i], bn)
      ensures FileBlock(old(disk), old(inodes)[i], bn) != 0 ==>
                disk == old(disk) && inodes == old(inodes) && owner == old(owner) && logged == old(logged) && bits == {}
      ensures addr == 0 ==> Full(sb, owner)
      ensures logged <= old(logged) + bits + Some(addr) + Some(inodes[i].addrs[INDIRECT])
      ensures |bits| <= (if FileBlock(old(disk), old(inodes)[i], bn) == 0 && addr != 0 then 1 else 0)
                      + (if old(inodes)[i].addrs[INDIRECT] == 0 && inodes[i].addrs[INDIRECT] != 0 then 1 else 0)
    {
      if bn < NDIRECT {
        addr, bits := MapAddr(i, bn);
        GrewMore(old(disk), old(inodes), old(owner), disk, inodes, owner, i, {bn}, {SlotOf(bn), INDIRECT});
      } else {
        addr, bits := BmapIndirect(i, bn);
      }
    }

    // bmap past the direct blocks.
    method BmapIndirect(i: nat, bn: nat) returns (addr: nat, ghost bits: set<nat>)
      requires Valid() && i < |inodes| && NDIRECT <= bn < MAXFILE
      modifies this`disk, this`inodes, this`owner, this`logged
      ensures Valid() && Grew(old(disk), old(inodes), old(owner), disk, inodes, owner, i, {SlotOf(bn), INDIRECT})
      ensures addr == FileBlock(disk, inodes[i], bn)
      ensures FileBlock(old(disk), old(inodes)[i], bn) != 0 ==>
                disk == old(disk) && inodes == old(inodes) && owner == old(owner) && logged == old(logged) && bits == {}
      ensures addr == 0 ==> Full(sb, owner)
      ensures logged <= old(logged) + bits + Some(addr) + Some(inodes[i].addrs[INDIRECT])
      ensures |bits| <= (if FileBlock(old(disk), old(inodes)[i], bn) == 0 && addr != 0 then 1 else 0)
                      + (if old(inodes)[i].addrs[INDIRECT] == 0 && inodes[i].addrs[INDIRECT] != 0 then 1 else 0)
    {
      addr, bits := MapAddr(i, INDIRECT);
      if addr == 0 {
        GrewMore(old(disk), old(inodes), old(owner), disk, inodes, owner, i, {INDIRECT}, {SlotOf(bn), INDIRECT});
        return;
      }
      ghost var d1, inodes1, owner1, bits1 := disk, inodes, owner, bits;
      addr, bits := MapEntry(i, bn + 1);
      GrewTrans(old(disk), old(inodes), old(owner), d1, inodes1, owner1, disk, inodes, owner, i, {INDIRECT}, {SlotOf(bn)});
      assert {INDIRECT} + {SlotOf(bn)} == {SlotOf(bn), INDIRECT};
      bits := bits1 + bits;
    }

    /** One round of writei's loop: find or allocate the block at cur and copy data
        into it. */
    method WriteOne(i: nat, cur: nat, data: seq<Byte>) returns (addr: nat, ghost bits: set<nat>)
      requires Valid() && i < |inodes| && cur / BSIZE < MAXFILE && cur % BSIZE + |data| <= BSIZE
      modifies this`disk, this`inodes, this`owner, this`logged
      ensures Valid() && KeptBut(old(disk), old(inodes), disk, inodes, i, cur, cur + |data|)
      ensures addr == 0 ==> KeptBut(old(disk), old(inodes), disk, inodes, i, 0, 0)
      ensures addr == 0 ==> Full(sb, owner) && !Mapped(old(disk), old(inodes), i, cur / BSIZE)
      ensures addr != 0 ==> Mapped(disk, inodes, i, cur / BSIZE)
      ensures addr != 0 ==> forall p :: cur <= p < cur + |data| ==> ByteAt(disk, inodes[i], p) == data[p - cur]
      ensures forall b :: b in old(owner) ==> b in owner && owner[b] == old(owner)[b]
      ensures logged <= old(logged) + bits + Some(addr) + Some(inodes[i].addrs[INDIRECT])
      ensures |bits| <= (if !Mapped(old(disk), old(inodes), i, cur / BSIZE) && addr != 0 then 1 else 0)
                      + (if old(inodes)[i].addrs[INDIRECT] == 0 && inodes[i].addrs[INDIRECT] != 0 then 1 else 0)
      ensures old(inodes)[i].addrs[INDIRECT] != 0 ==> inodes[i].addrs[INDIRECT] == old(inodes)[i].addrs[INDIRECT]
    {
      addr, bits := Bmap(i, cur / BSIZE);
      GrewMeans(old(disk), old(inodes), old(owner), disk, inodes, owner, i, {SlotOf(cur / BSIZE), INDIRECT});
      GrewKeeps(sb, old(disk), old(inodes), old(owner), disk, inodes, owner, i, {SlotOf(cur / BSIZE), INDIRECT});
      if addr != 0 {
        CopyIn(i, cur, data, addr);
      }
    }

    // Copying data into the mapped block, and logging it.
    method CopyIn(i: nat, cur: nat, data: seq<Byte>, addr: nat)
      requires Valid() && i < |inodes| && cur / BSIZE < MAXFILE && cur % BSIZE + |data| <= BSIZE
      requires Mapped(disk, inodes, i, cur / BSIZE) && addr == FileBlock(disk, inodes[i], cur / BSIZE)
      modifies this`disk, this`logged
      ensures Valid() && KeptBut(old(disk), inodes, disk, inodes, i, cur, cur + |data|) && Mapped(disk, inodes, i, cur / BSIZE)
      ensures forall p :: cur <= p < cur + |data| ==> ByteAt(disk, inodes[i], p) == data[p - cur]
      ensures logged == old(logged) + {addr}
    {
      SlotInData(sb, disk, inodes, owner, i, SlotOf(cur / BSIZE));
      var o := cur % BSIZE;
      var blk: Block := disk[addr][..o] + data + disk[addr][o + |data|..];
      WriteChanges(sb, disk, inodes, owner, i, cur, data, blk);
      disk := disk[addr := blk];
      logged := logged + {addr};
    }

    // One round on the part of src that is next, as progress on the whole.
    method WriteRound(i: nat, off: nat, src: seq<Byte>, tot: nat, m: nat, ghost d0: Disk, ghost inodes0: seq<Inode>)
      returns (addr: nat, ghost bits: set<nat>)
      requires Valid() && i < |inodes| && tot + m <= |src|
      requires (off + tot) / BSIZE < MAXFILE && (off + tot) % BSIZE + m <= BSIZE
      requires Written(d0, inodes0, disk, inodes, i, off, src, tot)
      modifies this`disk, this`inodes, this`owner, this`logged
      ensures Valid() && Written(d0, inodes0, disk, inodes, i, off, src, if addr == 0 then tot else tot + m)
      ensures addr == 0 ==> Full(sb, owner)
      ensures forall b :: b in old(owner) ==> b in owner && owner[b] == old(owner)[b]
      ensures logged <= old(logged) + bits + Some(addr) + Some(inodes[i].addrs[INDIRECT])
      ensures |bits| <= (if !Mapped(old(disk), old(inodes), i, (off + tot) / BSIZE) && addr != 0 then 1 else 0)
                      + NewIndirect(old(inodes)[i], inodes[i])
      ensures old(inodes)[i].addrs[INDIRECT] != 0 ==> inodes[i].addrs[INDIRECT] == old(inodes)[i].addrs[INDIRECT]
    {
      addr, bits := WriteOne(i, off + tot, src[tot..tot + m]);
      WrittenStep(d0, inodes0, old(disk), old(inodes), disk, inodes, i, off, src, tot, if addr == 0 then 0 else m);
    }

    // The blocks logged after some rounds: at most one bitmap block per block that had to
    // be allocated, the data blocks and the indirect block.
    ghost predicate Accounted(logged0: set<nat>, ip0: Inode, i: nat, first: nat, t: Tally)
      reads this
    {
      && i < |inodes| && |ip0.addrs| == |inodes[i].addrs| == NDIRECT + 1
      && logged <= logged0 + t.bits + t.data + Some(inodes[i].addrs[INDIRECT])
      && |t.data| <= t.rounds
      && |t.bits| <= (if t.rounds == 0 then 0 else t.rounds - first) + NewIndirect(ip0, inodes[i])
      && (ip0.addrs[INDIRECT] != 0 ==> inodes[i].addrs[INDIRECT] == ip0.addrs[INDIRECT])
    }

    // The same round with the account kept.
    method CountedRound(i: nat, off: nat, src: seq<Byte>, tot: nat, m: nat, ghost d0: Disk, ghost inodes0: seq<Inode>,
                        ghost logged0: set<nat>, ghost ip0: Inode, ghost first: nat, ghost t: Tally)
      returns (addr: nat, ghost t': Tally)
      requires Valid() && i < |inodes| && tot + m <= |src|
      requires (off + tot) / BSIZE < MAXFILE && (off + tot) % BSIZE + m <= BSIZE
      requires Written(d0, inodes0, disk, inodes, i, off, src, tot)
      requires Accounted(logged0, ip0, i, first, t) && first <= 1
      requires t.rounds == 0 && first == 1 ==> tot == 0 && Mapped(d0, inodes0, i, off / BSIZE)
      modifies this`disk, this`inodes, this`owner, this`logged
      ensures Valid() && Written(d0, inodes0, disk, inodes, i, off, src, if addr == 0 then tot else tot + m)
      ensures addr == 0 ==> Full(sb, owner)
      ensures forall b :: b in old(owner) ==> b in owner && owner[b] == old(owner)[b]
      ensures Accounted(logged0, ip0, i, first, t')
      ensures t'.rounds == if addr == 0 then t.rounds else t.rounds + 1
    {
      ghost var more;
      addr, more := WriteRound(i, off, src, tot, m, d0, inodes0);
      CardUnion(t.bits, more);
      CardUnion(t.data, Some(addr));
      t' := Tally(if addr == 0 then t.rounds else t.rounds + 1, t.bits + more, t.data + Some(addr));
    }

    // The same round again, choosing how much of src fits the block.
    method NextRound(i: nat, off: nat, src: seq<Byte>, tot: nat, ghost d0: Disk, ghost inodes0: seq<Inode>,
                     ghost logged0: set<nat>, ghost ip0: Inode, ghost first: nat, ghost t: Tally)
      returns (tot': nat, ghost t': Tally)
      requires Valid() && i < |inodes| && tot < |src| && off + |src| <= MAXFILE * BSIZE
      requires Written(d0, inodes0, disk, inodes, i, off, src, tot)
      requires Accounted(logged0, ip0, i, first, t) && first <= 1
      requires first == 1 ==> Mapped(d0, inodes0, i, off / BSIZE)
      requires RoundsDone(off, |src|, tot, t.rounds)
      modifies this`disk, this`inodes, this`owner, this`logged
      ensures Valid() && tot <= tot' <= |src| && Written(d0, inodes0, disk, inodes, i, off, src, tot')
      ensures tot' == tot ==> Full(sb, owner)
      ensures forall b :: b in old(owner) ==> b in owner && owner[b] == old(owner)[b]
      ensures Accounted(logged0, ip0, i, first, t') && RoundsDone(off, |src|, tot', t'.rounds)
    {
      var n := |src|;
      var m := if n - tot < BSIZE - (off + tot) % BSIZE then n - tot else BSIZE - (off + tot) % BSIZE;
      RoundStep(off, n, tot, t.rounds);
      var addr;
      addr, t' := CountedRound(i, off, src, tot, m, d0, inodes0, logged0, ip0, first, t);
      tot' := if addr == 0 then tot else tot + m;
    }

    // writei's loop.
    method WriteBlocks(i: nat, off: nat, src: seq<Byte>) returns (tot: nat, ghost t: Tally)
      requires Valid() && i < |inodes| && off + |src| <= MAXFILE * BSIZE
      modifies this`disk, this`inodes, this`owner, this`logged
      ensures Valid() && Written(old(disk), old(inodes), disk, inodes, i, off, src, tot)
      ensures tot < |src| ==> Full(sb, owner)
      ensures forall b :: b in old(owner) ==> b in owner && owner[b] == old(owner)[b]
      ensures Accounted(old(logged), old(inodes)[i], i, if Mapped(old(disk), old(inodes), i, off / BSIZE) then 1 else 0, t)
      ensures t.rounds <= BlocksTouched(off, |src|)
    {
      ghost var first := if Mapped(disk, inodes, i, off / BSIZE) then 1 else 0;
      tot, t := 0, Tally(0, {}, {});
      while tot < |src|
        invariant Valid() && tot <= |src| && Written(old(disk), old(inodes), disk, inodes, i, off, src, tot)
        invariant forall b :: b in old(owner) ==> b in owner && owner[b] == old(owner)[b]
        invariant Accounted(old(logged), old(inodes)[i], i, first, t)
        invariant RoundsDone(off, |src|, tot, t.rounds)
      {
        var before := tot;
        tot, t := NextRound(i, off, src, tot, old(disk), old(inodes), old(logged), old(inodes)[i], first, t);
        if tot == before {
          break;
        }
      }
      RoundsBound(off, |src|, tot, t.rounds);
    }

    /** writei refuses exactly the offsets past the end and the ranges past the maximum
        file size; otherwise it splices the first tot bytes in, extends the size to cover
        them, stops early only on a full disk, and leaves every other file alone. */
    method Writei(i: nat, off: nat, src: seq<Byte>) returns (tot: int)
      requires Valid() && i < |inodes| && HoleFree(disk, inodes[i]) && off < WORD && |src| < WORD
      modifies this`disk, this`inodes, this`owner, this`logged
      ensures Valid()
      ensures tot < 0 <==> off > old(inodes)[i].size || off + |src| > MAXFILE * BSIZE
      ensures tot < 0 ==> tot == -1 && disk == old(disk) && inodes == old(inodes) && logged == old(logged)
      ensures tot >= 0 ==>
                && tot <= |src| && HoleFree(disk, inodes[i])
                && Content(disk, inodes[i]) == Splice(Content(old(disk), old(inodes)[i]), off, src[..tot])
      ensures 0 <= tot < |src| ==> Full(sb, owner)
      ensures |src| <= MAXCHUNK ==> |logged - old(logged)| <= MAXOPBLOCKS
      ensures forall b :: b in old(owner) ==> b in owner && owner[b] == old(owner)[b]
      ensures OthersSame(old(disk), old(inodes), disk, inodes, i)
    {
      var n := |src|;
      if off > inodes[i].size || (off + n) % WORD < off {
        return -1;
      }
      if off + n > MAXFILE * BSIZE {
        return -1;
      }
      tot := WriteInRange(i, off, src);
    }

    // writei past its checks: copy, extend the size, write the inode back.
    method WriteInRange(i: nat, off: nat, src: seq<Byte>) returns (tot: nat)
      requires Valid() && i < |inodes| && HoleFree(disk, inodes[i])
      requires off <= inodes[i].size && off + |src| <= MAXFILE * BSIZE
      modifies this`disk, this`inodes, this`owner, this`logged
      ensures Valid() && tot <= |src| && OthersSame(old(disk), old(inodes), disk, inodes, i)
      ensures HoleFree(disk, inodes[i])
      ensures Content(disk, inodes[i]) == Splice(Content(old(disk), old(inodes)[i]), off, src[..tot])
      ensures tot < |src| ==> Full(sb, owner)
      ensures |src| <= MAXCHUNK ==> |logged - old(logged)| <= MAXOPBLOCKS
      ensures forall b :: b in old(owner) ==> b in owner && owner[b] == old(owner)[b]
    {
      ghost var t;
      ghost var iblock: nat := i / IPB + sb.inodestart;
      tot, t := WriteBlocks(i, off, src);
      LogBound(old(logged), logged, t, old(disk), old(inodes), i, off, |src|, inodes[i].addrs[INDIRECT], iblock);
      Extend(i, off, src, tot, old(disk), old(inodes));
      logged := logged + {iblock};
    }

    // The new size, once the bytes are in place.
    method Extend(i: nat, off: nat, ghost src: seq<Byte>, tot: nat, ghost d0: Disk, ghost inodes0: seq<Inode>)
      requires Valid() && Written(d0, inodes0, disk, inodes, i, off, src, tot) && i < |inodes0|
      requires HoleFree(d0, inodes0[i]) && off <= inodes0[i].size && off + tot <= MAXFILE * BSIZE
      modifies this`inodes
      ensures Valid() && OthersSame(d0, inodes0, disk, inodes, i) && i < |inodes|
      ensures HoleFree(disk, inodes[i]) && Content(disk, inodes[i]) == Splice(Content(d0, inodes0[i]), off, src[..tot])
    {
      ghost var inodes1 := inodes;
      if off + tot > inodes[i].size {
        inodes := inodes[i := inodes[i].(size := off + tot)];
      }
      WrittenContent(d0, inodes0, disk, inodes1, i, off, src, tot, inodes[i]);
      SizeKeepsOwned(sb, disk, inodes1, owner, i, inodes[i].size);
      OthersKept(d0, inodes0, disk, inodes1, i, off, off + tot, inodes[i]);
      assert inodes == inodes1[i := inodes[i]];
    }

    /** readi returns exactly the requested slice of the contents, cut off at the end of
        the file, and allocates nothing. */
    method Readi(i: nat, off: nat, n0: nat) returns (dst: seq<Byte>)
      requires Valid() && i < |inodes| && HoleFree(disk, inodes[i]) && off < WORD && n0 < WORD
      modifies this`disk, this`inodes, this`owner, this`logged
      ensures disk == old(disk) && inodes == old(inodes) && owner == old(owner) && logged == old(logged)
      ensures off > inodes[i].size || off + n0 >= WORD ==> dst == []
      ensures off <= inodes[i].size && off + n0 < WORD ==>
                dst == Content(disk, inodes[i])[off..if off + n0 > inodes[i].size then inodes[i].size else off + n0]
    {
      var n := n0;
      dst := [];
      if off > inodes[i].size || (off + n) % WORD < off {
        return;
      }
      if off + n > inodes[i].size {
        n := inodes[i].size - off;
      }
      ghost var content := Content(disk, inodes[i]);
      var tot := 0;
      while tot < n
        invariant tot <= n
        invariant disk == old(disk) && inodes == old(inodes) && owner == old(owner) && logged == old(logged)
        invariant dst == content[off..off + tot]
      {
        var part := ReadOne(i, off + tot, n - tot);
        SliceJoin(content, off, off + tot, off + tot + |part|);
        dst, tot := dst + part, tot + |part|;
      }
    }

    // One round of readi's loop: what is left of the block at cur, at most n bytes.
    method ReadOne(i: nat, cur: nat, n: nat) returns (part: seq<Byte>)
      requires Valid() && i < |inodes| && HoleFree(disk, inodes[i]) && 0 < n && cur + n <= inodes[i].size
      modifies this`disk, this`inodes, this`owner, this`logged
      ensures disk == old(disk) && inodes == old(inodes) && owner == old(owner) && logged == old(logged)
      ensures 0 < |part| <= n && part == Content(disk, inodes[i])[cur..cur + |part|]
    {
      assert (cur / BSIZE) * BSIZE <= cur;
      ghost var bits;
      var addr;
      addr, bits := Bmap(i, cur / BSIZE);
      SlotInData(sb, disk, inodes, owner, i, SlotOf(cur / BSIZE));
      var m := if n < BSIZE - cur % BSIZE then n else BSIZE - cur % BSIZE;
      part := disk[addr][cur % BSIZE..cur % BSIZE + m];
      SliceOfBlock(disk, inodes[i], cur, m);
    }

    // One chunk of filewrite.
    method WriteChunk(i: nat, off0: nat, src: seq<Byte>, k: nat, n1: nat, ghost d0: Disk, ghost inodes0: seq<Inode>, ghost c0: seq<Byte>)
      returns (r: int, off: nat, ghost cost: nat)
      requires Valid() && Filled(d0, inodes0, disk, inodes, i, c0, off0, src, k)
      requires k + n1 <= |src| && n1 <= MAXCHUNK && off0 + |src| < WORD
      modifies this`disk, this`inodes, this`owner, this`logged
      ensures Valid() && -1 <= r <= n1 && cost <= MAXOPBLOCKS
      ensures r < 0 ==> off0 > |c0| || off0 + |src| > MAXFILE * BSIZE
      ensures 0 <= r < n1 ==> Full(sb, owner)
      ensures off == off0 + k + (if r > 0 then r else 0)
      ensures Filled(d0, inodes0, disk, inodes, i, c0, off0, src, off - off0)
    {
      FilledMeans(d0, inodes0, disk, inodes, i, c0, off0, src, k);
      ghost var d1, inodes1 := disk, inodes;
      r, cost := Transaction(i, off0 + k, src[k..k + n1]);
      off := off0 + k + if r > 0 then r else 0;
      ChunkFilled(d0, inodes0, d1, inodes1, disk, inodes, i, c0, off0, src, k, n1, r);
    }

    // begin_op, writei, end_op: what one operation logs.
    method Transaction(i: nat, off: nat, piece: seq<Byte>) returns (r: int, ghost cost: nat)
      requires Valid() && i < |inodes| && HoleFree(disk, inodes[i]) && |piece| <= MAXCHUNK && off + |piece| < WORD
      modifies this`disk, this`inodes, this`owner, this`logged
      ensures Valid() && OthersSame(old(disk), old(inodes), disk, inodes, i) && HoleFree(disk, inodes[i]) && cost <= MAXOPBLOCKS
      ensures -1 <= r <= |piece| && (r < 0 <==> off > old(inodes)[i].size || off + |piece| > MAXFILE * BSIZE)
      ensures var c, c' := Content(old(disk), old(inodes)[i]), Content(disk, inodes[i]);
              if r < 0 then c' == c else off <= |c| && c' == Splice(c, off, piece[..r])
      ensures 0 <= r < |piece| ==> Full(sb, owner)
    {
      logged := {};
      r := Writei(i, off, piece);
      assert logged - {} == logged;
      cost := |logged|;
    }

    /** filewrite: each chunk is its own transaction and stays within MAXOPBLOCKS, and
        together the chunks splice in a prefix of src, all of it on success; the file
        offset ends right after what was written. */
    method FileWrite(i: nat, off0: nat, src: seq<Byte>) returns (ret: int, off: nat, ghost worst: nat)
      requires Valid() && i < |inodes| && HoleFree(disk, inodes[i]) && off0 + |src| < WORD
      modifies this`disk, this`inodes, this`owner, this`logged
      ensures Valid() && OthersSame(old(disk), old(inodes), disk, inodes, i) && HoleFree(disk, inodes[i])
      ensures off0 <= off <= off0 + |src|
      ensures ret == if off == off0 + |src| then |src| else -1
      ensures Spliced(Content(disk, inodes[i]), Content(old(disk), old(inodes)[i]), off0, src, off - off0)
      ensures ret < 0 ==> Full(sb, owner) || off0 > old(inodes)[i].size || off0 + |src| > MAXFILE * BSIZE
      ensures worst <= MAXOPBLOCKS
    {
      ghost var d0, inodes0, c0 := disk, inodes, Content(disk, inodes[i]);
      SplicedNone(c0, off0, src);
      FilledMeans(disk, inodes, disk, inodes, i, c0, off0, src, 0);
      ret, off, worst := WriteChunks(i, off0, src, d0, inodes0, c0);
      FilledMeans(d0, inodes0, disk, inodes, i, c0, off0, src, off - off0);
    }

    // filewrite's loop.
    method WriteChunks(i: nat, off0: nat, src: seq<Byte>, ghost d0: Disk, ghost inodes0: seq<Inode>, ghost c0: seq<Byte>)
      returns (ret: int, off: nat, ghost worst: nat)
      requires Valid() && Filled(d0, inodes0, disk, inodes, i, c0, off0, src, 0) && off0 + |src| < WORD
      modifies this`disk, this`inodes, this`owner, this`logged
      ensures Valid() && off0 <= off <= off0 + |src| && Filled(d0, inodes0, disk, inodes, i, c0, off0, src, off - off0)
      ensures ret == if off == off0 + |src| then |src| else -1
      ensures ret < 0 ==> Full(sb, owner) || off0 > |c0| || off0 + |src| > MAXFILE * BSIZE
      ensures worst <= MAXOPBLOCKS
    {
      var n := |src|;
      var k := 0;
      off, worst := off0, 0;
      while k < n
        invariant 0 <= k <= n && off == off0 + k && worst <= MAXOPBLOCKS
        invariant Valid() && Filled(d0, inodes0, disk, inodes, i, c0, off0, src, k)
      {
        var n1 := if n - k > MAXCHUNK then MAXCHUNK else n - k;
        var r;
        ghost var cost;
        r, off, cost := WriteChunk(i, off0, src, k, n1, d0, inodes0, c0);
        worst := if cost > worst then cost else worst;
        if r != n1 {
          break;
        }
        k := k + r;
      }
      ret := if k == n then n else -1;
    }

    // One round of itrunc's first loop.
    method FreeAddr(i: nat, k: nat)
      requires Valid() && i < |inodes| && k < NDIRECT
      modifies this`disk, this`inodes, this`owner, this`logged
      ensures Valid() && inodes == old(inodes)[i := old(inodes)[i].(addrs := old(inodes)[i].addrs[k := 0])]
      ensures owner == Without(old(owner), i, k, k + 1) && DataSame(sb, old(disk), disk)
    {
      NoneBefore(sb, disk, inodes, owner, i, k);
      var a := inodes[i].addrs[k];
      if a != 0 {
        ReleaseAddr(sb, disk, inodes, owner, i, k);
        Bfree(a);
        inodes := inodes[i := inodes[i].(addrs := inodes[i].addrs[k := 0])];
        owner := owner - {a};
      } else {
        assert inodes[i].addrs[k := 0] == inodes[i].addrs;
      }
    }

    // itrunc's first loop.
    method TruncDirect(i: nat)
      requires Valid() && i < |inodes|
      modifies this`disk, this`inodes, this`owner, this`logged
      ensures Valid() && inodes == old(inodes)[i := old(inodes)[i].(addrs := ZeroBelow(old(inodes)[i].addrs, NDIRECT))]
      ensures owner == Without(old(owner), i, 0, NDIRECT) && DataSame(sb, old(disk), disk)
    {
      var k := 0;
      assert ZeroBelow(inodes[i].addrs, 0) == inodes[i].addrs;
      WithoutNone(owner, i);
      while k < NDIRECT
        invariant 0 <= k <= NDIRECT && Valid() && DataSame(sb, old(disk), disk)
        invariant inodes == old(inodes)[i := old(inodes)[i].(addrs := ZeroBelow(old(inodes)[i].addrs, k))]
        invariant owner == Without(old(owner), i, 0, k)
      {
        FreeAddr(i, k);
        WithoutMore(old(owner), i, 0, k, k + 1);
        assert ZeroBelow(old(inodes)[i].addrs, k)[k := 0] == ZeroBelow(old(inodes)[i].addrs, k + 1);
        k := k + 1;
      }
    }

    // One round of itrunc's second loop. The entries themselves are left in place on the
    // disk, as their block is about to be freed; on `seen` they are emptied.
    method FreeEntry(i: nat, ind: nat, j: nat, ghost seen: Disk) returns (ghost seen': Disk)
      requires Shaped(sb, seen, inodes) && Owned(sb, seen, inodes, owner)
      requires i < |inodes| && j < NINDIRECT && ind == inodes[i].addrs[INDIRECT] && 0 < ind < |disk|
      requires |seen| == |disk| && disk == seen[ind := disk[ind]]
      requires Entry(disk[ind], j) == Entry(seen[ind], j)
      modifies this`disk, this`owner, this`logged
      ensures Shaped(sb, seen', inodes) && Owned(sb, seen', inodes, owner)
      ensures owner == Without(old(owner), i, 13 + j, 14 + j) && DataSame(sb, old(disk), disk)
      ensures disk == seen'[ind := disk[ind]]
      ensures forall l: nat :: l < NINDIRECT ==> Entry(seen'[ind], l) == if l == j then 0 else Entry(seen[ind], l)
    {
      EmptyEntry(sb, seen, inodes, owner, i, j);
      seen' := Emptied(sb, seen, ind, j);
      var a := Entry(disk[ind], j);
      if a != 0 {
        FreeBoth(sb, seen, disk, owner, ind, a, PutEntry(seen[ind], j, 0));
        Bfree(a);
        owner := owner - {a};
      }
    }

    // itrunc past the direct blocks.
    method TruncIndirect(i: nat)
      requires Valid() && i < |inodes| && inodes[i].addrs[INDIRECT] != 0
      modifies this`disk, this`inodes, this`owner, this`logged
      ensures Valid() && inodes == old(inodes)[i := old(inodes)[i].(addrs := old(inodes)[i].addrs[INDIRECT := 0])]
      ensures owner == Without(old(owner), i, INDIRECT, NSLOTS) && DataSame(sb, old(disk), disk)
    {
      var ind := inodes[i].addrs[INDIRECT];
      SlotInData(sb, disk, inodes, owner, i, INDIRECT);
      ghost var seen := FreeEntries(i, ind);
      FreeIndirect(i, ind, seen);
      WithoutMore(old(owner), i, INDIRECT, 13, NSLOTS);
    }

    // itrunc's second loop.
    method FreeEntries(i: nat, ind: nat) returns (ghost seen: Disk)
      requires Valid() && i < |inodes| && ind == inodes[i].addrs[INDIRECT] && 0 < ind < |disk|
      modifies this`disk, this`owner, this`logged
      ensures Shaped(sb, seen, inodes) && Owned(sb, seen, inodes, owner)
      ensures owner == Without(old(owner), i, 13, NSLOTS) && DataSame(sb, old(disk), disk)
      ensures |seen| == |disk| && disk == seen[ind := disk[ind]]
      ensures forall l: nat :: l < NINDIRECT ==> Entry(seen[ind], l) == 0
    {
      seen := disk;
      var j := 0;
      WithoutNone(owner, i);
      SlotInData(sb, disk, inodes, owner, i, INDIRECT);
      while j < NINDIRECT
        invariant 0 <= j <= NINDIRECT
        invariant Shaped(sb, seen, inodes) && Owned(sb, seen, inodes, owner)
        invariant owner == Without(old(owner), i, 13, 13 + j) && DataSame(sb, old(disk), disk)
        invariant |seen| == |disk| && disk == seen[ind := disk[ind]]
        invariant forall l: nat :: l < NINDIRECT ==> Entry(seen[ind], l) == if l < j then 0 else Entry(disk[ind], l)
      {
        seen := FreeEntry(i, ind, j, seen);
        WithoutMore(old(owner), i, 13, 13 + j, 14 + j);
        j := j + 1;
      }
    }

    // Then the indirect block itself.
    method FreeIndirect(i: nat, ind: nat, ghost seen: Disk)
      requires Shaped(sb, seen, inodes) && Owned(sb, seen, inodes, owner)
      requires i < |inodes| && ind == inodes[i].addrs[INDIRECT] && 0 < ind < |disk|
      requires |seen| == |disk| && disk == seen[ind := disk[ind]]
      requires forall l: nat :: l < NINDIRECT ==> Entry(seen[ind], l) == 0
      modifies this`disk, this`inodes, this`owner, this`logged
      ensures Valid() && inodes == old(inodes)[i := old(inodes)[i].(addrs := old(inodes)[i].addrs[INDIRECT := 0])]
      ensures owner == Without(old(owner), i, INDIRECT, 13) && DataSame(sb, old(disk), disk)
    {
      ReleaseAddr(sb, seen, inodes, owner, i, INDIRECT);
      NoneBefore(sb, seen, inodes, owner, i, INDIRECT);
      ghost var freed := PutUsed(sb, seen, ind, false);
      FreeBoth(sb, seen, disk, owner, ind, ind, seen[ind]);
      Bfree(ind);
      inodes := inodes[i := inodes[i].(addrs := inodes[i].addrs[INDIRECT := 0])];
      owner := owner - {ind};
      WriteKeepsOwned(sb, freed, inodes, owner, ind, disk[ind]);
      assert disk == freed[ind := disk[ind]];
    }

    // Both of itrunc's loops.
    method TruncBlocks(i: nat)
      requires Valid() && i < |inodes|
      modifies this`disk, this`inodes, this`owner, this`logged
      ensures Valid() && inodes == old(inodes)[i := old(inodes)[i].(addrs := NoAddrs())]
      ensures owner == Without(old(owner), i, 0, NSLOTS)
      ensures DataSame(sb, old(disk), disk)
    {
      WithoutMore(owner, i, 0, NDIRECT, NSLOTS);
      TruncDirect(i);
      assert ZeroBelow(old(inodes)[i].addrs, NDIRECT)[INDIRECT := 0] == NoAddrs();
      if inodes[i].addrs[INDIRECT] != 0 {
        TruncIndirect(i);
      } else {
        NoIndirect(sb, disk, inodes, owner, i);
        assert inodes[i].addrs == NoAddrs();
      }
    }

    /** itrunc frees exactly the blocks the file owns, without ever freeing a free block,
        and leaves every other file's blocks and contents alone. */
    method Itrunc(i: nat)
      requires Valid() && i < |inodes|
      modifies this`disk, this`inodes, this`owner, this`logged
      ensures Valid() && inodes == old(inodes)[i := Inode(0, NoAddrs())]
      ensures owner == map b | b in old(owner) && old(owner)[b].inum != i :: old(owner)[b]
      ensures DataSame(sb, old(disk), disk)
    {
      AllSlots(sb, disk, inodes, owner, i);
      TruncBlocks(i);
      SizeKeepsOwned(sb, disk, inodes, owner, i, 0);
      inodes := inodes[i := inodes[i].(size := 0)];
      logged := logged + {i / IPB + sb.inodestart};
    }
  }
}
