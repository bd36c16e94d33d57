/** The free-block bitmap, block-number words in indirect blocks, and who owns
    which disk block (kernel/fs.c, kernel/fs.h). Disk contents are those the log
    presents to its callers: bread sees the latest log_write. */
module FsLayout {

  const BSIZE: nat := 1024
  const BPB: nat := 8192        // BSIZE * 8 bitmap bits per block
  const NDIRECT: nat := 12
  const NINDIRECT: nat := 256   // BSIZE / sizeof(uint)
  const MAXFILE: nat := 268
  const IPB: nat := 16          // BSIZE / sizeof(struct dinode)
  const WORD: nat := 0x1_0000_0000

  type Byte = x: int | 0 <= x < 256
  type Block = b: seq<Byte> | |b| == BSIZE witness seq(BSIZE, _ => 0)
  type Disk = seq<Block>

  function Zeroed(): (b: Block) {
    seq(BSIZE, _ => 0)
  }

  // ----- bits of the free map -----

  // (x >> k) & 1
  predicate Bit(x: nat, k: nat) {
    if k == 0 then x % 2 == 1 else Bit(x / 2, k - 1)
  }

  // x | (1 << k), or x & ~(1 << k).
  function PutBit(x: nat, k: nat, on: bool): (y: nat) {
    if k == 0 then x - x % 2 + (if on then 1 else 0)
    else 2 * PutBit(x / 2, k - 1, on) + x % 2
  }

  function Pow2(n: nat): (p: nat)
    ensures p >= 1
  {
    if n == 0 then 1 else 2 * Pow2(n - 1)
  }

  lemma {:induction false} PutBitBelow(x: nat, k: nat, on: bool, n: nat)
    requires k < n && x < Pow2(n)
    ensures PutBit(x, k, on) < Pow2(n)
  {
    var p := Pow2(n - 1);
    assert Pow2(n) == 2 * p && x / 2 < p;
    if k > 0 {
      PutBitBelow(x / 2, k - 1, on, n - 1);
      Doubled(PutBit(x / 2, k - 1, on), x % 2, p);
    } else {
      Doubled(x / 2, if on then 1 else 0, p);
    }
  }

  lemma Doubled(h: nat, b: nat, p: nat)
    requires h < p && b < 2
    ensures 2 * h + b < 2 * p
  {
  }

  /** Writing one bit changes that bit and no other. */
  lemma {:induction false} BitOfPutBit(x: nat, k: nat, on: bool, j: nat)
    ensures Bit(PutBit(x, k, on), j) == if j == k then on else Bit(x, j)
  {
    if k > 0 && j > 0 {
      BitOfPutBit(x / 2, k - 1, on, j - 1);
    }
  }

  lemma {:induction false} BitOfZero(k: nat)
    ensures !Bit(0, k)
  {
    if k > 0 {
      BitOfZero(k - 1);
    }
  }

  function PutByteBit(x: Byte, k: nat, on: bool): (y: Byte)
    requires k < 8
    ensures forall j: nat :: Bit(y, j) == if j == k then on else Bit(x, j)
  {
    assert Pow2(8) == 256 by {
      assert Pow2(4) == 16;
    }
    PutBitBelow(x, k, on, 8);
    assert forall j: nat {:trigger Bit(PutBit(x, k, on), j)} ::
      Bit(PutBit(x, k, on), j) == if j == k then on else Bit(x, j) by {
      forall j: nat {
        BitOfPutBit(x, k, on, j);
      }
    }
    PutBit(x, k, on)
  }

  // The superblock's layout, as mkfs makes it: inode blocks, bitmap blocks, data.
  datatype Super = Super(size: nat, ninodes: nat, inodestart: nat, bmapstart: nat, datastart: nat) {
    ghost predicate Valid() {
      && 2 <= inodestart
      && inodestart + ninodes / IPB + 1 <= bmapstart
      && bmapstart + size / BPB + 1 <= datastart <= size < WORD
    }
  }

  // BBLOCK(b, sb)
  function BitBlock(sb: Super, b: nat): (c: nat) {
    b / BPB + sb.bmapstart
  }

  predicate Used(sb: Super, d: Disk, b: nat)
    requires BitBlock(sb, b) < |d|
  {
    var bi := b % BPB;
    Bit(d[BitBlock(sb, b)][bi / 8], bi % 8)
  }

  function PutUsed(sb: Super, d: Disk, b: nat, on: bool): (d': Disk)
    requires BitBlock(sb, b) < |d|
    ensures |d'| == |d|
  {
    var bi, c := b % BPB, BitBlock(sb, b);
    d[c := d[c][bi / 8 := PutByteBit(d[c][bi / 8], bi % 8, on)]]
  }

  /** Marking a block changes its own bit and no other block's. */
  lemma UsedOfPutUsed(sb: Super, d: Disk, b: nat, on: bool, x: nat)
    requires BitBlock(sb, b) < |d| && BitBlock(sb, x) < |d|
    ensures Used(sb, PutUsed(sb, d, b, on), x) == if x == b then on else Used(sb, d, x)
  {
    if BitBlock(sb, x) == BitBlock(sb, b) && (x % BPB) / 8 == (b % BPB) / 8 && (x % BPB) % 8 == (b % BPB) % 8 {
      assert x == b;
    }
  }

  // ----- block numbers stored in an indirect block, little endian -----

  function Entry(b: Block, i: nat): (a: nat)
    requires i < NINDIRECT
    ensures a < WORD
  {
    var b0: int, b1: int, b2: int, b3: int := b[4 * i], b[4 * i + 1], b[4 * i + 2], b[4 * i + 3];
    b0 + 0x100 * b1 + 0x1_0000 * b2 + 0x100_0000 * b3
  }

  function PutEntry(b: Block, i: nat, a: nat): (b': Block)
    requires i < NINDIRECT && a < WORD
  {
    b[4 * i := a % 0x100]
     [4 * i + 1 := (a / 0x100) % 0x100]
     [4 * i + 2 := (a / 0x1_0000) % 0x100]
     [4 * i + 3 := a / 0x100_0000]
  }

  /** Storing a word changes that word and no other. */
  lemma EntryOfPutEntry(b: Block, i: nat, a: nat, j: nat)
    requires i < NINDIRECT && j < NINDIRECT && a < WORD
    ensures Entry(PutEntry(b, i, a), j) == if j == i then a else Entry(b, j)
  {
    if j == i {
      LittleEndian(a);
    }
  }

  lemma LittleEndian(a: nat)
    requires a < WORD
    ensures a % 0x100 + 0x100 * ((a / 0x100) % 0x100) + 0x1_0000 * ((a / 0x1_0000) % 0x100) + 0x100_0000 * (a / 0x100_0000) == a
  {
    assert a / 0x1_0000 == (a / 0x100) / 0x100;
    assert a / 0x100_0000 == (a / 0x1_0000) / 0x100;
  }

  // ----- inodes and their slots -----

  // The part of an inode that describes its contents: addrs has NDIRECT + 1 entries.
  datatype Inode = Inode(size: nat, addrs: seq<nat>)

  // A place a block number can stand: slots 0..11 direct, 12 the indirect block,
  // 13.. the entries of the indirect block.
  const NSLOTS: nat := 269
  const INDIRECT: nat := 12
  datatype Place = Place(inum: nat, slot: nat)

  function Slot(d: Disk, ip: Inode, k: nat): (a: nat)
    requires |ip.addrs| == NDIRECT + 1 && k < NSLOTS
  {
    if k <= INDIRECT then ip.addrs[k]
    else if 0 < ip.addrs[INDIRECT] < |d| then Entry(d[ip.addrs[INDIRECT]], k - 13)
    else 0
  }

  // Which slot maps block bn of a file.
  function SlotOf(bn: nat): (k: nat)
    requires bn < MAXFILE
    ensures k < NSLOTS && k != INDIRECT
  {
    if bn < NDIRECT then bn else bn + 1
  }

  function FileBlock(d: Disk, ip: Inode, bn: nat): (a: nat)
    requires |ip.addrs| == NDIRECT + 1 && bn < MAXFILE
  {
    Slot(d, ip, SlotOf(bn))
  }

  // The bitmap marks exactly the blocks before the data area and the owned ones.
  ghost predicate BitmapIs(sb: Super, d: Disk, owner: map<nat, Place>)
    requires sb.Valid() && |d| == sb.size
  {
    forall b: nat {:trigger Used(sb, d, b)} :: b < sb.size ==>
      (Used(sb, d, b) <==> b < sb.datastart || b in owner)
  }

  // No block is left to allocate.
  ghost predicate Full(sb: Super, owner: map<nat, Place>) {
    forall b: nat :: sb.datastart <= b < sb.size ==> b in owner
  }

  ghost predicate Shaped(sb: Super, d: Disk, inodes: seq<Inode>) {
    && sb.Valid()
    && |d| == sb.size
    && |inodes| == sb.ninodes
    && (forall i :: 0 <= i < |inodes| ==> |inodes[i].addrs| == NDIRECT + 1)
  }

  /** Ownership. `owner` tells for each used data block the one place that names it:
      every nonzero block number is a used data block, is named nowhere else, and no
      used data block is lost. */
  ghost predicate Owned(sb: Super, d: Disk, inodes: seq<Inode>, owner: map<nat, Place>)
    requires Shaped(sb, d, inodes)
  {
    && BitmapIs(sb, d, owner)
    && (forall b: nat :: b in owner ==> sb.datastart <= b < sb.size)
    && (forall b {:trigger NamedBy(d, inodes, b, owner[b])} :: b in owner ==> NamedBy(d, inodes, b, owner[b]))
    && (forall i, k :: 0 <= i < |inodes| && 0 <= k < NSLOTS ==> OwnsSlot(d, inodes[i], i, k, owner))
  }

  ghost predicate NamedBy(d: Disk, inodes: seq<Inode>, b: nat, p: Place) {
    && p.inum < |inodes| && p.slot < NSLOTS
    && |inodes[p.inum].addrs| == NDIRECT + 1
    && Slot(d, inodes[p.inum], p.slot) == b
  }

  ghost predicate OwnsSlot(d: Disk, ip: Inode, i: nat, k: nat, owner: map<nat, Place>)
    requires |ip.addrs| == NDIRECT + 1 && k < NSLOTS
  {
    var a := Slot(d, ip, k);
    a != 0 ==> a in owner && owner[a] == Place(i, k)
  }

  // Blocks below the file's size are all mapped.
  ghost predicate HoleFree(d: Disk, ip: Inode) {
    && |ip.addrs| == NDIRECT + 1
    && ip.size <= MAXFILE * BSIZE
    && forall bn: nat :: bn * BSIZE < ip.size ==> FileBlock(d, ip, bn) != 0
  }

  // Where block numbers read from slots lie.
  lemma SlotInData(sb: Super, d: Disk, inodes: seq<Inode>, owner: map<nat, Place>, i: nat, k: nat)
    requires Shaped(sb, d, inodes) && Owned(sb, d, inodes, owner) && i < |inodes| && k < NSLOTS
    ensures var a := Slot(d, inodes[i], k);
            a != 0 ==> sb.datastart <= a < sb.size && a in owner && owner[a] == Place(i, k)
  {
    assert OwnsSlot(d, inodes[i], i, k, owner);
  }

  lemma OwnerNames(sb: Super, d: Disk, inodes: seq<Inode>, owner: map<nat, Place>, b: nat)
    requires Shaped(sb, d, inodes) && Owned(sb, d, inodes, owner) && b in owner
    ensures NamedBy(d, inodes, b, owner[b])
  {
  }

  // The bitmap does not look at the data area.
  lemma BitmapFrame(sb: Super, d: Disk, owner: map<nat, Place>, d': Disk)
    requires sb.Valid() && |d| == |d'| == sb.size && BitmapIs(sb, d, owner)
    requires forall c :: 0 <= c < sb.datastart ==> d'[c] == d[c]
    ensures BitmapIs(sb, d', owner)
  {
    forall b: nat | b < sb.size ensures Used(sb, d', b) <==> b < sb.datastart || b in owner {
      assert Used(sb, d, b) <==> b < sb.datastart || b in owner;
    }
  }

  /** Writing file data, or anything that is not some inode's indirect block and lies
      in the data area, leaves ownership as it was. */
  lemma WriteKeepsOwned(sb: Super, d: Disk, inodes: seq<Inode>, owner: map<nat, Place>, a: nat, data: Block)
    requires Shaped(sb, d, inodes) && Owned(sb, d, inodes, owner)
    requires sb.datastart <= a < sb.size && (a in owner ==> owner[a].slot != INDIRECT)
    ensures Shaped(sb, d[a := data], inodes) && Owned(sb, d[a := data], inodes, owner)
    ensures forall i, k :: 0 <= i < |inodes| && 0 <= k < NSLOTS ==>
              Slot(d[a := data], inodes[i], k) == Slot(d, inodes[i], k)
  {
    var d' := d[a := data];
    forall i, k | 0 <= i < |inodes| && 0 <= k < NSLOTS
      ensures Slot(d', inodes[i], k) == Slot(d, inodes[i], k)
    {
      SlotInData(sb, d, inodes, owner, i, INDIRECT);
    }
    BitmapFrame(sb, d, owner, d');
    forall b | b in owner ensures NamedBy(d', inodes, b, owner[b]) {
      OwnerNames(sb, d, inodes, owner, b);
    }
    forall i, k | 0 <= i < |inodes| && 0 <= k < NSLOTS ensures OwnsSlot(d', inodes[i], i, k, owner) {
      SlotInData(sb, d, inodes, owner, i, k);
    }
  }

  // Every slot but (i, k), which now holds a, reads the same before and after.
  ghost predicate OneSlotChanged(d: Disk, inodes: seq<Inode>, d': Disk, inodes': seq<Inode>, i: nat, k: nat, a: nat) {
    && |inodes'| == |inodes|
    && (forall j :: 0 <= j < |inodes| ==> |inodes[j].addrs| == |inodes'[j].addrs| == NDIRECT + 1)
    && (forall j, l :: 0 <= j < |inodes| && 0 <= l < NSLOTS ==>
        Slot(d', inodes'[j], l) == if j == i && l == k then a else Slot(d, inodes[j], l))
  }

  /** A free block put into an empty slot becomes owned by that slot. */
  lemma AssignOwned(sb: Super, d: Disk, inodes: seq<Inode>, owner: map<nat, Place>,
                    d': Disk, inodes': seq<Inode>, i: nat, k: nat, a: nat)
    requires Shaped(sb, d, inodes) && Owned(sb, d, inodes, owner)
    requires |d'| == |d| && i < |inodes| && k < NSLOTS
    requires sb.datastart <= a < sb.size && a !in owner
    requires Slot(d, inodes[i], k) == 0 && OneSlotChanged(d, inodes, d', inodes', i, k, a)
    requires BitmapIs(sb, d', owner[a := Place(i, k)])
    ensures Shaped(sb, d', inodes') && Owned(sb, d', inodes', owner[a := Place(i, k)])
  {
    var owner' := owner[a := Place(i, k)];
    forall b | b in owner' ensures NamedBy(d', inodes', b, owner'[b]) {
      if b != a {
        OwnerNames(sb, d, inodes, owner, b);
      }
    }
    forall j, l | 0 <= j < |inodes| && 0 <= l < NSLOTS ensures OwnsSlot(d', inodes'[j], j, l, owner') {
      SlotInData(sb, d, inodes, owner, j, l);
    }
  }

  /** Freeing the block of a slot and emptying the slot gives the block up. */
  lemma ReleaseOwned(sb: Super, d: Disk, inodes: seq<Inode>, owner: map<nat, Place>,
                     d': Disk, inodes': seq<Inode>, i: nat, k: nat)
    requires Shaped(sb, d, inodes) && Owned(sb, d, inodes, owner)
    requires |d'| == |d| && i < |inodes| && k < NSLOTS
    requires OneSlotChanged(d, inodes, d', inodes', i, k, 0)
    requires Slot(d, inodes[i], k) != 0 && BitmapIs(sb, d', owner - {Slot(d, inodes[i], k)})
    ensures Shaped(sb, d', inodes') && Owned(sb, d', inodes', owner - {Slot(d, inodes[i], k)})
  {
    var a := Slot(d, inodes[i], k);
    SlotInData(sb, d, inodes, owner, i, k);
    forall b | b in owner - {a} ensures NamedBy(d', inodes', b, (owner - {a})[b]) {
      OwnerNames(sb, d, inodes, owner, b);
    }
    forall j, l | 0 <= j < |inodes| && 0 <= l < NSLOTS ensures OwnsSlot(d', inodes'[j], j, l, owner - {a}) {
      SlotInData(sb, d, inodes, owner, j, l);
    }
  }

  // What balloc does to the disk.
  function Balloced(sb: Super, d: Disk, a: nat): (d': Disk)
    requires BitBlock(sb, a) < |d| && a < |d|
    ensures |d'| == |d|
  {
    PutUsed(sb, d, a, true)[a := Zeroed()]
  }

  lemma BallocedBitmap(sb: Super, d: Disk, owner: map<nat, Place>, a: nat, p: Place)
    requires sb.Valid() && |d| == sb.size && BitmapIs(sb, d, owner) && sb.datastart <= a < sb.size
    ensures BitmapIs(sb, Balloced(sb, d, a), owner[a := p])
    ensures forall b: nat :: sb.datastart <= b < sb.size ==> Balloced(sb, d, a)[b] == if b == a then Zeroed() else d[b]
  {
    forall b: nat | b < sb.size
      ensures Used(sb, Balloced(sb, d, a), b) <==> b < sb.datastart || b in owner[a := p]
    {
      UsedOfPutUsed(sb, d, a, true, b);
      assert Used(sb, d, b) <==> b < sb.datastart || b in owner;
    }
  }

  lemma FreedBitmap(sb: Super, d: Disk, owner: map<nat, Place>, a: nat)
    requires sb.Valid() && |d| == sb.size && BitmapIs(sb, d, owner) && sb.datastart <= a < sb.size
    ensures BitmapIs(sb, PutUsed(sb, d, a, false), owner - {a})
    ensures forall b: nat :: sb.datastart <= b < sb.size ==> PutUsed(sb, d, a, false)[b] == d[b]
  {
    forall b: nat | b < sb.size
      ensures Used(sb, PutUsed(sb, d, a, false), b) <==> b < sb.datastart || b in owner - {a}
    {
      UsedOfPutUsed(sb, d, a, false, b);
      assert Used(sb, d, b) <==> b < sb.datastart || b in owner;
    }
  }

  lemma ZeroEntries(i: nat)
    requires i < NINDIRECT
    ensures Entry(Zeroed(), i) == 0
  {
  }

  /** bmap's first two assignments: a fresh block becomes a direct block or the
      indirect block of inode i. */
  lemma AssignAddr(sb: Super, d: Disk, inodes: seq<Inode>, owner: map<nat, Place>, i: nat, k: nat, a: nat)
    requires Shaped(sb, d, inodes) && Owned(sb, d, inodes, owner)
    requires i < |inodes| && k <= INDIRECT && inodes[i].addrs[k] == 0
    requires sb.datastart <= a < sb.size && a !in owner
    ensures var d', inodes' := Balloced(sb, d, a), inodes[i := inodes[i].(addrs := inodes[i].addrs[k := a])];
            && OneSlotChanged(d, inodes, d', inodes', i, k, a)
            && Shaped(sb, d', inodes') && Owned(sb, d', inodes', owner[a := Place(i, k)])
  {
    var d', inodes' := Balloced(sb, d, a), inodes[i := inodes[i].(addrs := inodes[i].addrs[k := a])];
    BallocedBitmap(sb, d, owner, a, Place(i, k));
    forall j, l | 0 <= j < |inodes| && 0 <= l < NSLOTS
      ensures Slot(d', inodes'[j], l) == if j == i && l == k then a else Slot(d, inodes[j], l)
    {
      SlotInData(sb, d, inodes, owner, j, INDIRECT);
      if j == i && k == INDIRECT && l > INDIRECT {
        ZeroEntries(l - 13);
      }
    }
    AssignOwned(sb, d, inodes, owner, d', inodes', i, k, a);
  }

  lemma EntrySlot(sb: Super, d: Disk, inodes: seq<Inode>, owner: map<nat, Place>, i: nat, k: nat, a: nat, j: nat, l: nat)
    requires Shaped(sb, d, inodes) && Owned(sb, d, inodes, owner)
    requires i < |inodes| && INDIRECT < k < NSLOTS && j < |inodes| && l < NSLOTS
    requires sb.datastart <= a < sb.size && a !in owner
    requires sb.datastart <= inodes[i].addrs[INDIRECT] < sb.size
    ensures var ind := inodes[i].addrs[INDIRECT];
            var d' := Balloced(sb, d, a)[ind := PutEntry(d[ind], k - 13, a)];
            Slot(d', inodes[j], l) == if j == i && l == k then a else Slot(d, inodes[j], l)
  {
    var ind := inodes[i].addrs[INDIRECT];
    SlotInData(sb, d, inodes, owner, i, INDIRECT);
    SlotInData(sb, d, inodes, owner, j, INDIRECT);
    BallocedBitmap(sb, d, owner, a, Place(i, k));
    if j == i && l > INDIRECT {
      EntryOfPutEntry(d[ind], k - 13, a, l - 13);
    }
  }

  /** bmap's last assignment: a fresh block becomes an entry of the indirect block. */
  lemma AssignEntry(sb: Super, d: Disk, inodes: seq<Inode>, owner: map<nat, Place>, i: nat, k: nat, a: nat)
    requires Shaped(sb, d, inodes) && Owned(sb, d, inodes, owner)
    requires i < |inodes| && INDIRECT < k < NSLOTS && inodes[i].addrs[INDIRECT] != 0
    requires Slot(d, inodes[i], k) == 0
    requires sb.datastart <= a < sb.size && a !in owner
    ensures var ind := inodes[i].addrs[INDIRECT];
            && sb.datastart <= ind < sb.size && ind != a
            && var d' := Balloced(sb, d, a)[ind := PutEntry(d[ind], k - 13, a)];
            && OneSlotChanged(d, inodes, d', inodes, i, k, a)
            && Shaped(sb, d', inodes) && Owned(sb, d', inodes, owner[a := Place(i, k)])
  {
    var ind := inodes[i].addrs[INDIRECT];
    SlotInData(sb, d, inodes, owner, i, INDIRECT);
    var d1 := Balloced(sb, d, a);
    var d' := d1[ind := PutEntry(d[ind], k - 13, a)];
    forall j, l | 0 <= j < |inodes| && 0 <= l < NSLOTS
      ensures Slot(d', inodes[j], l) == if j == i && l == k then a else Slot(d, inodes[j], l)
    {
      EntrySlot(sb, d, inodes, owner, i, k, a, j, l);
    }
    BallocedBitmap(sb, d, owner, a, Place(i, k));
    BitmapFrame(sb, d1, owner[a := Place(i, k)], d');
    AssignOwned(sb, d, inodes, owner, d', inodes, i, k, a);
  }

  /** itrunc on an address in the inode itself. An address in slot INDIRECT may go only
      when all entries of the indirect block are gone. */
  lemma ReleaseAddr(sb: Super, d: Disk, inodes: seq<Inode>, owner: map<nat, Place>, i: nat, k: nat)
    requires Shaped(sb, d, inodes) && Owned(sb, d, inodes, owner)
    requires i < |inodes| && k <= INDIRECT && inodes[i].addrs[k] != 0
    requires k == INDIRECT ==> forall l :: INDIRECT < l < NSLOTS ==> Slot(d, inodes[i], l) == 0
    ensures var a := inodes[i].addrs[k];
            && sb.datastart <= a < sb.size && a in owner && owner[a] == Place(i, k) && Used(sb, d, a)
            && var d', inodes' := PutUsed(sb, d, a, false), inodes[i := inodes[i].(addrs := inodes[i].addrs[k := 0])];
            && Shaped(sb, d', inodes') && Owned(sb, d', inodes', owner - {a})
            && forall b: nat :: sb.datastart <= b < sb.size ==> d'[b] == d[b]
  {
    var a := inodes[i].addrs[k];
    assert Slot(d, inodes[i], k) == a;
    SlotInData(sb, d, inodes, owner, i, k);
    var d', inodes' := PutUsed(sb, d, a, false), inodes[i := inodes[i].(addrs := inodes[i].addrs[k := 0])];
    FreedBitmap(sb, d, owner, a);
    forall j, l | 0 <= j < |inodes| && 0 <= l < NSLOTS
      ensures Slot(d', inodes'[j], l) == if j == i && l == k then 0 else Slot(d, inodes[j], l)
    {
      SlotInData(sb, d, inodes, owner, j, INDIRECT);
    }
    ReleaseOwned(sb, d, inodes, owner, d', inodes', i, k);
  }

  /** itrunc on an entry of the indirect block, with the entry itself emptied. */
  lemma ReleaseEntry(sb: Super, d: Disk, inodes: seq<Inode>, owner: map<nat, Place>, i: nat, k: nat)
    requires Shaped(sb, d, inodes) && Owned(sb, d, inodes, owner)
    requires i < |inodes| && INDIRECT < k < NSLOTS && Slot(d, inodes[i], k) != 0
    ensures var a, ind := Slot(d, inodes[i], k), inodes[i].addrs[INDIRECT];
            && sb.datastart <= a < sb.size && a in owner && owner[a] == Place(i, k) && Used(sb, d, a)
            && sb.datastart <= ind < sb.size && a != ind
            && var d' := PutUsed(sb, d, a, false)[ind := PutEntry(d[ind], k - 13, 0)];
            && OneSlotChanged(d, inodes, d', inodes, i, k, 0)
            && Shaped(sb, d', inodes) && Owned(sb, d', inodes, owner - {a})
            && forall b: nat :: sb.datastart <= b < sb.size && b != ind ==> d'[b] == d[b]
  {
    var a, ind := Slot(d, inodes[i], k), inodes[i].addrs[INDIRECT];
    SlotInData(sb, d, inodes, owner, i, k);
    SlotInData(sb, d, inodes, owner, i, INDIRECT);
    var d1 := PutUsed(sb, d, a, false);
    var d' := d1[ind := PutEntry(d[ind], k - 13, 0)];
    FreedBitmap(sb, d, owner, a);
    BitmapFrame(sb, d1, owner - {a}, d');
    forall j, l | 0 <= j < |inodes| && 0 <= l < NSLOTS
      ensures Slot(d', inodes[j], l) == if j == i && l == k then 0 else Slot(d, inodes[j], l)
    {
      SlotInData(sb, d, inodes, owner, j, INDIRECT);
      if j == i && l > INDIRECT {
        EntryOfPutEntry(d[ind], k - 13, 0, l - 13);
      }
    }
    ReleaseOwned(sb, d, inodes, owner, d', inodes, i, k);
  }

  function FreeBlocks(sb: Super, d: Disk): (s: set<nat>)
    requires sb.Valid() && |d| == sb.size
  {
    set b: nat | b < sb.size && !Used(sb, d, b)
  }

  /** Conservation: free blocks and blocks owned by files always add up to the data area. */
  lemma BlocksConserved(sb: Super, d: Disk, inodes: seq<Inode>, owner: map<nat, Place>)
    requires Shaped(sb, d, inodes) && Owned(sb, d, inodes, owner)
    ensures FreeBlocks(sb, d) !! owner.Keys
    ensures |FreeBlocks(sb, d)| + |owner| == sb.size - sb.datastart
  {
    var free := FreeBlocks(sb, d);
    forall b: nat | b < sb.size ensures b in free <==> sb.datastart <= b && b !in owner {
      assert Used(sb, d, b) <==> b < sb.datastart || b in owner;
    }
    assert free + owner.Keys == Interval(sb.datastart, sb.size);
  }

  ghost function Interval(lo: nat, hi: nat): (s: set<nat>)
    requires lo <= hi
    ensures |s| == hi - lo && forall b: nat :: b in s <==> lo <= b < hi
  {
    if lo == hi then {} else Interval(lo, hi - 1) + {hi - 1}
  }
}
