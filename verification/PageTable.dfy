/** Sv39 page tables in physical memory (kernel/vm.c, kernel/riscv.h; section 4.4 of
    the RISC-V Privileged Architecture, version 1.12), as a value: what a tree of table
    pages maps, who owns each physical page, and what writing one entry does. */
module PageTable {

  const PGSIZE: nat := 4096
  const NPTE: nat := 512
  const MAXVA: nat := 0x40_0000_0000          // 1 << 38
  const MAXVPN: nat := 0x400_0000             // MAXVA / PGSIZE
  const TRAPVPN: nat := MAXVPN - 2            // TRAPFRAME, then TRAMPOLINE

  // A page as 512 64-bit words.
  type Page = p: seq<nat> | |p| == NPTE witness seq(NPTE, _ => 0)
  type Mem = map<nat, Page>                   // by physical address

  function ZeroPage(): (p: Page) {
    seq(NPTE, _ => 0)
  }

  // ----- addresses and entries -----

  // PX(level, va)
  function PX(level: nat, va: nat): (i: nat)
    requires level <= 2
    ensures i < NPTE
  {
    if level == 0 then (va / 0x1000) % NPTE
    else if level == 1 then (va / 0x20_0000) % NPTE
    else (va / 0x4000_0000) % NPTE
  }

  function Vpn(i2: nat, i1: nat, i0: nat): (v: nat) {
    i2 * 0x4_0000 + i1 * 0x200 + i0
  }

  /** The three 9-bit indices of an address below MAXVA determine its page, and only it:
      two addresses reach the same slot only if they lie in the same page. */
  lemma IndicesDetermineVpn(va: nat)
    requires va < MAXVA
    ensures Vpn(PX(2, va), PX(1, va), PX(0, va)) == va / PGSIZE
    ensures PX(2, va) < 256
  {
    var v := va / PGSIZE;
    assert va / 0x20_0000 == v / 0x200;
    assert va / 0x4000_0000 == v / 0x4_0000;
    assert v / 0x4_0000 == (v / 0x200) / 0x200;
  }

  lemma VpnInjective(i2: nat, i1: nat, i0: nat, j2: nat, j1: nat, j0: nat)
    requires i1 < NPTE && i0 < NPTE && j1 < NPTE && j0 < NPTE
    requires Vpn(i2, i1, i0) == Vpn(j2, j1, j0)
    ensures i2 == j2 && i1 == j1 && i0 == j0
  {
  }

  predicate V(e: nat) {
    e % 2 == 1
  }

  // Some of the bits PTE_R, PTE_W, PTE_X, which are bits 1 to 3.
  predicate IsLeaf(e: nat) {
    e % 16 >= 2
  }

  function PA2PTE(pa: nat): (e: nat) {
    (pa / PGSIZE) * 0x400
  }

  function PTE2PA(e: nat): (pa: nat) {
    (e / 0x400) * PGSIZE
  }

  function Flags(e: nat): (f: nat) {
    e % 0x400
  }

  // PA2PTE(pa) | perm | PTE_V
  function MakePte(pa: nat, perm: nat): (e: nat) {
    PA2PTE(pa) + (if V(perm) then perm else perm + 1)
  }

  /** The entry for an aligned page and permission bits gives both back. */
  lemma PteRoundTrip(pa: nat, perm: nat)
    requires pa % PGSIZE == 0 && perm < 0x400
    ensures PTE2PA(MakePte(pa, perm)) == pa
    ensures Flags(MakePte(pa, perm)) == (if V(perm) then perm else perm + 1)
    ensures V(MakePte(pa, perm)) && (IsLeaf(MakePte(pa, perm)) <==> IsLeaf(perm))
  {
    var q, f := pa / PGSIZE, if V(perm) then perm else perm + 1;
    LowBits(q, f);
    assert (q * 0x400 + f) / 0x400 == q;
  }

  lemma LowBits(q: nat, f: nat)
    ensures (q * 0x400 + f) % 16 == f % 16
    ensures (q * 0x400 + f) % 2 == f % 2
  {
  }

  // ----- what a tree maps -----

  // The page-table page reached through entry i of page p, or 0.
  function Child(mem: Mem, p: nat, i: nat): (c: nat)
    requires i < NPTE
  {
    if p in mem && V(mem[p][i]) then PTE2PA(mem[p][i]) else 0
  }

  // The level-0 entry for a virtual page, or 0 when the walk does not get there.
  function Leaf(mem: Mem, root: nat, i2: nat, i1: nat, i0: nat): (e: nat)
    requires i2 < NPTE && i1 < NPTE && i0 < NPTE
  {
    var p0 := Child(mem, Child(mem, root, i2), i1);
    if p0 in mem then mem[p0][i0] else 0
  }

  // The leaf entry for a virtual address.
  function Lookup(mem: Mem, root: nat, va: nat): (e: nat) {
    Leaf(mem, root, PX(2, va), PX(1, va), PX(0, va))
  }

  // ----- who owns each page -----

  // Node: a table page of the tree at `root`, with the indices that lead to it.
  // Frame: the memory page that the tree maps at the given indices below TRAPFRAME.
  // Loose: allocated, but not (or not yet) part of any tree.
  datatype Role =
    | Node(root: nat, level: nat, i2: nat, i1: nat)
    | Frame(root: nat, i2: nat, i1: nat, i0: nat)
    | Loose

  ghost predicate IsRoot(role: map<nat, Role>, r: nat) {
    r in role && role[r] == Node(r, 2, 0, 0)
  }

  ghost function ChildRole(n: Role, i: nat): (c: Role)
    requires n.Node? && n.level >= 1
  {
    if n.level == 2 then Node(n.root, 1, i, 0) else Node(n.root, 0, n.i2, i)
  }

  // Entry i of table page p leads where the roles say.
  ghost predicate EntryOk(mem: Mem, role: map<nat, Role>, p: nat, i: nat)
    requires p in mem && p in role && role[p].Node? && i < NPTE
  {
    var e, n := mem[p][i], role[p];
    if !V(e) then e == 0
    else if n.level >= 1 then
      && e == MakePte(PTE2PA(e), 0)
      && PTE2PA(e) in role && role[PTE2PA(e)] == ChildRole(n, i)
    else
      && IsLeaf(e)
      && (Vpn(n.i2, n.i1, i) < TRAPVPN ==>
          PTE2PA(e) in role && role[PTE2PA(e)] == Frame(n.root, n.i2, n.i1, i))
  }

  // Page p is reached as its role says.
  ghost predicate PageOk(mem: Mem, role: map<nat, Role>, p: nat)
    requires p in role
  {
    match role[p]
    case Node(r, level, i2, i1) =>
      && IsRoot(role, r) && level <= 2 && i2 < NPTE && i1 < NPTE
      && (level == 2 ==> p == r && i2 == 0 && i1 == 0)
      && (level <= 1 ==> i2 < 256)
      && (level == 1 ==> i1 == 0 && Child(mem, r, i2) == p)
      && (level == 0 ==> Child(mem, Child(mem, r, i2), i1) == p)
    case Frame(r, i2, i1, i0) =>
      && IsRoot(role, r) && i2 < NPTE && i1 < NPTE && i0 < NPTE
      && Vpn(i2, i1, i0) < TRAPVPN
      && V(Leaf(mem, r, i2, i1, i0)) && PTE2PA(Leaf(mem, r, i2, i1, i0)) == p
    case Loose => true
  }

  /** Every page that has a role is where its role says, and every valid entry leads to a
      page with the matching role; as a page has one role, no page is reached twice. */
  ghost predicate Tables(mem: Mem, role: map<nat, Role>) {
    && 0 !in mem
    && (forall p {:trigger p in role} :: p in role ==> p in mem && p % PGSIZE == 0)
    && (forall p {:trigger PageOk(mem, role, p)} :: p in role ==> PageOk(mem, role, p))
    && (forall p, i {:trigger EntryOk(mem, role, p, i)} ::
        p in role && role[p].Node? && 0 <= i < NPTE && p in mem ==> EntryOk(mem, role, p, i))
  }

  // The two table pages on the way to a leaf have the roles the indices say.
  lemma WalkRoles(mem: Mem, role: map<nat, Role>, r: nat, i2: nat, i1: nat)
    requires Tables(mem, role) && IsRoot(role, r) && i2 < NPTE && i1 < NPTE
    ensures var p1 := Child(mem, r, i2);
            && (p1 != 0 ==> p1 in role && role[p1] == Node(r, 1, i2, 0))
            && var p0 := Child(mem, p1, i1);
            && (p0 != 0 ==> p1 != 0 && p0 in role && role[p0] == Node(r, 0, i2, i1))
            && (p1 == 0 ==> p0 == 0)
  {
    assert EntryOk(mem, role, r, i2);
    var p1 := Child(mem, r, i2);
    if V(mem[r][i2]) {
      assert p1 in role && p1 != 0;
      assert EntryOk(mem, role, p1, i1);
    }
  }

  // A write to entry i of table page p.
  function Poke(mem: Mem, p: nat, i: nat, e: nat): (m: Mem)
    requires p in mem && i < NPTE
    ensures m.Keys == mem.Keys
  {
    mem[p := mem[p][i := e]]
  }

  // Where walks go after a write to entry i of table page p.
  lemma ChildOfPoke(mem: Mem, p: nat, i: nat, e: nat, q: nat, j: nat)
    requires p in mem && i < NPTE && j < NPTE
    ensures Child(Poke(mem, p, i, e), q, j) ==
            if q == p && j == i then (if V(e) then PTE2PA(e) else 0) else Child(mem, q, j)
  {
  }

  /** Writing a level-0 entry changes the translation of exactly one virtual page of one
      tree. */
  lemma LeafOfPoke(mem: Mem, role: map<nat, Role>, p: nat, i: nat, e: nat, r: nat, j2: nat, j1: nat, j0: nat)
    requires Tables(mem, role) && p in role && role[p].Node? && role[p].level == 0 && i < NPTE
    requires IsRoot(role, r) && j2 < NPTE && j1 < NPTE && j0 < NPTE
    ensures Child(Poke(mem, p, i, e), r, j2) == Child(mem, r, j2)
    ensures Child(Poke(mem, p, i, e), Child(mem, r, j2), j1) == Child(mem, Child(mem, r, j2), j1)
    ensures Leaf(Poke(mem, p, i, e), r, j2, j1, j0) ==
            if r == role[p].root && j2 == role[p].i2 && j1 == role[p].i1 && j0 == i then e
            else Leaf(mem, r, j2, j1, j0)
  {
    WalkRoles(mem, role, r, j2, j1);
    var p1 := Child(mem, r, j2);
    ChildOfPoke(mem, p, i, e, r, j2);
    ChildOfPoke(mem, p, i, e, p1, j1);
    assert PageOk(mem, role, p);
  }

  // Nothing but the roots and indices of walks matters to what pages and entries say.
  lemma PageOkFrame(mem: Mem, role: map<nat, Role>, mem': Mem, role': map<nat, Role>, p: nat)
    requires p in role && p in role' && role'[p] == role[p] && PageOk(mem, role, p)
    requires role[p].Loose? || IsRoot(role', role[p].root)
    requires role[p].Node? ==> Child(mem', role[p].root, role[p].i2) == Child(mem, role[p].root, role[p].i2)
    requires role[p].Node? && role[p].level == 0 ==>
               var p1 := Child(mem, role[p].root, role[p].i2);
               Child(mem', p1, role[p].i1) == Child(mem, p1, role[p].i1)
    requires role[p].Frame? ==>
               Leaf(mem', role[p].root, role[p].i2, role[p].i1, role[p].i0) ==
               Leaf(mem, role[p].root, role[p].i2, role[p].i1, role[p].i0)
    ensures PageOk(mem', role', p)
  {
  }

  // ----- what each kind of write keeps -----

  // Every translation of every tree still there is the same.
  ghost predicate SameLeaves(mem: Mem, mem': Mem, role': map<nat, Role>) {
    forall r, i2, i1, i0 {:trigger Leaf(mem', r, i2, i1, i0)} {:trigger Leaf(mem, r, i2, i1, i0)} ::
      IsRoot(role', r) && 0 <= i2 < NPTE && 0 <= i1 < NPTE && 0 <= i0 < NPTE ==>
        Leaf(mem', r, i2, i1, i0) == Leaf(mem, r, i2, i1, i0)
  }

  // One translation of tree r is now e.
  ghost predicate OneLeaf(mem: Mem, mem': Mem, role': map<nat, Role>, r: nat, i2: nat, i1: nat, i0: nat, e: nat) {
    forall s, j2, j1, j0 {:trigger Leaf(mem', s, j2, j1, j0)} {:trigger Leaf(mem, s, j2, j1, j0)} ::
      IsRoot(role', s) && 0 <= j2 < NPTE && 0 <= j1 < NPTE && 0 <= j0 < NPTE ==>
        Leaf(mem', s, j2, j1, j0) ==
        if s == r && j2 == i2 && j1 == i1 && j0 == i0 then e else Leaf(mem, s, j2, j1, j0)
  }

  /** mappages' assignment: an unmapped slot of a level-0 table page gets a page. Below
      TRAPFRAME the page must be loose and becomes the tree's. */
  lemma SetLeaf(mem: Mem, role: map<nat, Role>, p: nat, i: nat, pa: nat, perm: nat)
    requires Tables(mem, role) && p in role && role[p].Node? && role[p].level == 0 && i < NPTE
    requires mem[p][i] == 0 && pa % PGSIZE == 0 && perm < 0x400 && IsLeaf(perm)
    requires Vpn(role[p].i2, role[p].i1, i) < TRAPVPN ==> pa in role && role[pa].Loose?
    ensures var n, mem' := role[p], Poke(mem, p, i, MakePte(pa, perm));
            var role' := if Vpn(n.i2, n.i1, i) < TRAPVPN then role[pa := Frame(n.root, n.i2, n.i1, i)] else role;
            && Tables(mem', role')
            && OneLeaf(mem, mem', role', n.root, n.i2, n.i1, i, MakePte(pa, perm))
  {
    var n, e := role[p], MakePte(pa, perm);
    var mem' := Poke(mem, p, i, e);
    var role' := if Vpn(n.i2, n.i1, i) < TRAPVPN then role[pa := Frame(n.root, n.i2, n.i1, i)] else role;
    PteRoundTrip(pa, perm);
    assert PageOk(mem, role, p);
    LeavesOfPoke(mem, role, p, i, e, role');
    forall q | q in role' ensures PageOk(mem', role', q) {
      assert PageOk(mem, role, q);
      if !(Vpn(n.i2, n.i1, i) < TRAPVPN && q == pa) {
        PokedPage(mem, role, p, i, e, role', q);
      }
    }
    forall q, j | q in role' && role'[q].Node? && 0 <= j < NPTE && q in mem' ensures EntryOk(mem', role', q, j) {
      assert EntryOk(mem, role, q, j);
    }
  }

  /** uvmunmap's assignment: a mapped slot is cleared, and below TRAPFRAME its page comes
      loose. */
  lemma ClearLeaf(mem: Mem, role: map<nat, Role>, p: nat, i: nat)
    requires Tables(mem, role) && p in role && role[p].Node? && role[p].level == 0 && i < NPTE && V(mem[p][i])
    ensures var n, mem' := role[p], Poke(mem, p, i, 0);
            var owned, pa := Vpn(n.i2, n.i1, i) < TRAPVPN, PTE2PA(mem[p][i]);
            && (owned ==> pa in role && role[pa] == Frame(n.root, n.i2, n.i1, i))
            && var role' := if owned then role[pa := Loose] else role;
            && Tables(mem', role')
            && OneLeaf(mem, mem', role', n.root, n.i2, n.i1, i, 0)
  {
    var n, mem', pa := role[p], Poke(mem, p, i, 0), PTE2PA(mem[p][i]);
    var owned := Vpn(n.i2, n.i1, i) < TRAPVPN;
    assert EntryOk(mem, role, p, i);
    assert PageOk(mem, role, p);
    var role' := if owned then role[pa := Loose] else role;
    LeavesOfPoke(mem, role, p, i, 0, role');
    assert Leaf(mem, n.root, n.i2, n.i1, i) == mem[p][i];
    forall q | q in role' ensures PageOk(mem', role', q) {
      assert PageOk(mem, role, q);
      if !(owned && q == pa) {
        PokedPage(mem, role, p, i, 0, role', q);
      }
    }
    forall q, j | q in role' && role'[q].Node? && 0 <= j < NPTE && q in mem' ensures EntryOk(mem', role', q, j) {
      assert EntryOk(mem, role, q, j);
    }
  }

  lemma LeavesOfPoke(mem: Mem, role: map<nat, Role>, p: nat, i: nat, e: nat, role': map<nat, Role>)
    requires Tables(mem, role) && p in role && role[p].Node? && role[p].level == 0 && i < NPTE
    requires forall r :: IsRoot(role', r) ==> IsRoot(role, r)
    ensures OneLeaf(mem, Poke(mem, p, i, e), role', role[p].root, role[p].i2, role[p].i1, i, e)
  {
    forall s, j2, j1, j0 | IsRoot(role', s) && 0 <= j2 < NPTE && 0 <= j1 < NPTE && 0 <= j0 < NPTE
      ensures Leaf(Poke(mem, p, i, e), s, j2, j1, j0) ==
              if s == role[p].root && j2 == role[p].i2 && j1 == role[p].i1 && j0 == i then e else Leaf(mem, s, j2, j1, j0)
    {
      LeafOfPoke(mem, role, p, i, e, s, j2, j1, j0);
    }
  }

  // A page whose role stays keeps its place when some other level-0 slot is written.
  lemma PokedPage(mem: Mem, role: map<nat, Role>, p: nat, i: nat, e: nat, role': map<nat, Role>, q: nat)
    requires Tables(mem, role) && p in role && role[p].Node? && role[p].level == 0 && i < NPTE
    requires q in role && q in role' && role'[q] == role[q] && PageOk(mem, role, q)
    requires role[q] != Frame(role[p].root, role[p].i2, role[p].i1, i)
    requires forall r :: IsRoot(role', r) <==> IsRoot(role, r)
    ensures PageOk(Poke(mem, p, i, e), role', q)
  {
    var n := role[q];
    if n.Node? {
      LeafOfPoke(mem, role, p, i, e, n.root, n.i2, n.i1, 0);
    } else if n.Frame? {
      LeafOfPoke(mem, role, p, i, e, n.root, n.i2, n.i1, n.i0);
    }
    PageOkFrame(mem, role, Poke(mem, p, i, e), role', q);
  }

  // Changing pages that belong to no tree, and coming and going of such pages, does not
  // concern the trees.
  lemma LooseFrame(mem: Mem, role: map<nat, Role>, mem': Mem, role': map<nat, Role>)
    requires Tables(mem, role) && 0 !in mem'
    requires forall p :: p in role && !role[p].Loose? ==> p in role' && role'[p] == role[p] && p in mem'
    requires forall p :: p in role && role[p].Node? ==> mem'[p] == mem[p]
    requires forall p :: p in role' && (p !in role || role[p].Loose?) ==> role'[p].Loose? && p in mem' && p % PGSIZE == 0
    ensures Tables(mem', role') && SameLeaves(mem, mem', role')
  {
    forall r | IsRoot(role', r) ensures IsRoot(role, r) {
    }
    forall r, i2, i1 | IsRoot(role, r) && 0 <= i2 < NPTE && 0 <= i1 < NPTE
      ensures Child(mem', r, i2) == Child(mem, r, i2)
      ensures Child(mem', Child(mem, r, i2), i1) == Child(mem, Child(mem, r, i2), i1)
      ensures forall i0 :: 0 <= i0 < NPTE ==> Leaf(mem', r, i2, i1, i0) == Leaf(mem, r, i2, i1, i0)
    {
      WalkRoles(mem, role, r, i2, i1);
    }
    forall p | p in role' ensures PageOk(mem', role', p) {
      if !role'[p].Loose? {
        assert PageOk(mem, role, p);
        PageOkFrame(mem, role, mem', role', p);
      }
    }
    forall p, i | p in role' && role'[p].Node? && 0 <= i < NPTE && p in mem' ensures EntryOk(mem', role', p, i) {
      assert EntryOk(mem, role, p, i);
    }
  }

  /** walk's assignment: a zeroed loose page becomes the table page behind an empty entry.
      No translation changes. */
  lemma AddNode(mem: Mem, role: map<nat, Role>, p: nat, i: nat, c: nat)
    requires Tables(mem, role) && p in role && role[p].Node? && role[p].level >= 1 && i < NPTE
    requires mem[p][i] == 0 && c in role && role[c].Loose? && mem[c] == ZeroPage() && (role[p].level == 2 ==> i < 256)
    ensures var mem', role' := Poke(mem, p, i, MakePte(c, 0)), role[c := ChildRole(role[p], i)];
            Tables(mem', role') && SameLeaves(mem, mem', role')
  {
    var mem', role' := Poke(mem, p, i, MakePte(c, 0)), role[c := ChildRole(role[p], i)];
    PteRoundTrip(c, 0);
    assert PageOk(mem, role, p);
    forall r, i2, i1 | IsRoot(role', r) && 0 <= i2 < NPTE && 0 <= i1 < NPTE
      ensures Child(mem, r, i2) != 0 ==> Child(mem', r, i2) == Child(mem, r, i2)
      ensures Child(mem, Child(mem, r, i2), i1) != 0 ==>
                Child(mem', Child(mem, r, i2), i1) == Child(mem, Child(mem, r, i2), i1)
      ensures forall i0 :: 0 <= i0 < NPTE ==> Leaf(mem', r, i2, i1, i0) == Leaf(mem, r, i2, i1, i0)
    {
      assert IsRoot(role, r);
      AddedWalk(mem, role, p, i, c, r, i2, i1);
    }
    forall q | q in role' ensures PageOk(mem', role', q) {
      AddedPage(mem, role, p, i, c, q);
    }
    forall q, j | q in role' && role'[q].Node? && 0 <= j < NPTE && q in mem' ensures EntryOk(mem', role', q, j) {
      if q != c {
        assert EntryOk(mem, role, q, j);
      }
    }
  }

  // Walks after AddNode: those that got somewhere still get there, and the new page is empty.
  lemma AddedWalk(mem: Mem, role: map<nat, Role>, p: nat, i: nat, c: nat, r: nat, i2: nat, i1: nat)
    requires Tables(mem, role) && p in role && role[p].Node? && role[p].level >= 1 && i < NPTE
    requires mem[p][i] == 0 && c in role && role[c].Loose? && mem[c] == ZeroPage() && (role[p].level == 2 ==> i < 256)
    requires IsRoot(role, r) && i2 < NPTE && i1 < NPTE
    ensures var mem' := Poke(mem, p, i, MakePte(c, 0));
            var p1 := Child(mem, r, i2);
            var p0 := Child(mem, p1, i1);
            && (p1 != 0 ==> Child(mem', r, i2) == p1)
            && (p0 != 0 ==> Child(mem', p1, i1) == p0)
            && (forall i0 :: 0 <= i0 < NPTE ==> Leaf(mem', r, i2, i1, i0) == Leaf(mem, r, i2, i1, i0))
  {
    WalkRoles(mem, role, r, i2, i1);
    PteRoundTrip(c, 0);
    assert PageOk(mem, role, p);
    var mem', p1 := Poke(mem, p, i, MakePte(c, 0)), Child(mem, r, i2);
    ChildOfPoke(mem, p, i, MakePte(c, 0), r, i2);
    ChildOfPoke(mem, p, i, MakePte(c, 0), p1, i1);
    ChildOfPoke(mem, p, i, MakePte(c, 0), c, i1);
  }

  lemma AddedPage(mem: Mem, role: map<nat, Role>, p: nat, i: nat, c: nat, q: nat)
    requires Tables(mem, role) && p in role && role[p].Node? && role[p].level >= 1 && i < NPTE
    requires mem[p][i] == 0 && c in role && role[c].Loose? && mem[c] == ZeroPage() && (role[p].level == 2 ==> i < 256)
    requires q in role
    ensures PageOk(Poke(mem, p, i, MakePte(c, 0)), role[c := ChildRole(role[p], i)], q)
  {
    var mem', role' := Poke(mem, p, i, MakePte(c, 0)), role[c := ChildRole(role[p], i)];
    var n := role[p];
    PteRoundTrip(c, 0);
    assert PageOk(mem, role, p);
    assert PageOk(mem, role, q);
    ChildOfPoke(mem, p, i, MakePte(c, 0), p, i);
    if q == c {
      if n.level == 1 {
        AddedWalk(mem, role, p, i, c, n.root, n.i2, i);
      }
    } else if role[q].Node? {
      AddedWalk(mem, role, p, i, c, role[q].root, role[q].i2, role[q].i1);
    } else if role[q].Frame? {
      AddedWalk(mem, role, p, i, c, role[q].root, role[q].i2, role[q].i1);
    }
  }

  // A table page that is not a root and the entry that leads to it.
  ghost predicate Behind(role: map<nat, Role>, c: nat, pp: nat, pi: nat) {
    && c in role && role[c].Node? && pp in role && role[pp].Node? && pi < NPTE
    && role[pp].level >= 1 && role[c] == ChildRole(role[pp], pi)
  }

  /** freewalk's kfree and the assignment after it: an empty table page goes, and the entry
      that led to it is cleared. No translation of a remaining tree changes. */
  lemma RemoveNode(mem: Mem, role: map<nat, Role>, c: nat, pp: nat, pi: nat, junk: Page)
    requires Tables(mem, role) && c in role && role[c].Node? && mem[c] == ZeroPage()
    requires role[c].level < 2 ==> Behind(role, c, pp, pi)
    ensures var mem1 := mem[c := junk];
            var mem' := if role[c].level < 2 then Poke(mem1, pp, pi, 0) else mem1;
            Tables(mem', role - {c}) && SameLeaves(mem, mem', role - {c})
  {
    var mem1 := mem[c := junk];
    var mem' := if role[c].level < 2 then Poke(mem1, pp, pi, 0) else mem1;
    var role' := role - {c};
    assert PageOk(mem, role, c);
    if role[c].level < 2 {
      assert PageOk(mem, role, pp);
      assert EntryOk(mem, role, pp, pi);
    }
    forall r, i2, i1 | IsRoot(role', r) && 0 <= i2 < NPTE && 0 <= i1 < NPTE
      ensures Child(mem, r, i2) != c ==> Child(mem', r, i2) == Child(mem, r, i2)
      ensures Child(mem, r, i2) != c && Child(mem, Child(mem, r, i2), i1) != c ==>
                Child(mem', Child(mem, r, i2), i1) == Child(mem, Child(mem, r, i2), i1)
      ensures forall i0 :: 0 <= i0 < NPTE ==> Leaf(mem', r, i2, i1, i0) == Leaf(mem, r, i2, i1, i0)
    {
      assert IsRoot(role, r);
      RemovedWalk(mem, role, c, pp, pi, junk, r, i2, i1);
    }
    forall q | q in role' ensures PageOk(mem', role', q) {
      RemovedPage(mem, role, c, pp, pi, junk, q);
    }
    forall q, j | q in role' && role'[q].Node? && 0 <= j < NPTE && q in mem' ensures EntryOk(mem', role', q, j) {
      assert PageOk(mem, role, q);
      assert EntryOk(mem, role, q, j);
    }
  }

  // Walks before and after: only the one that led to the empty page changes, and it ended there.
  lemma RemovedWalk(mem: Mem, role: map<nat, Role>, c: nat, pp: nat, pi: nat, junk: Page, r: nat, i2: nat, i1: nat)
    requires Tables(mem, role) && c in role && role[c].Node? && mem[c] == ZeroPage()
    requires role[c].level < 2 ==> Behind(role, c, pp, pi)
    requires IsRoot(role, r) && r != c && i2 < NPTE && i1 < NPTE
    ensures var mem1 := mem[c := junk];
            var mem' := if role[c].level < 2 then Poke(mem1, pp, pi, 0) else mem1;
            var p1 := Child(mem, r, i2);
            var p0 := Child(mem, p1, i1);
            && (p1 != c ==> Child(mem', r, i2) == p1)
            && (p1 != c && p0 != c ==> Child(mem', p1, i1) == p0)
            && (p1 == c ==> p0 == 0)
            && (forall i0 :: 0 <= i0 < NPTE ==> Leaf(mem', r, i2, i1, i0) == Leaf(mem, r, i2, i1, i0))
  {
    WalkRoles(mem, role, r, i2, i1);
    assert PageOk(mem, role, c);
    var p1 := Child(mem, r, i2);
    var p0 := Child(mem, p1, i1);
    if role[c].level < 2 {
      assert PageOk(mem, role, pp);
      assert EntryOk(mem, role, pp, pi);
      var mem1 := mem[c := junk];
      ChildOfPoke(mem1, pp, pi, 0, r, i2);
      ChildOfPoke(mem1, pp, pi, 0, p1, i1);
    }
  }

  lemma RemovedPage(mem: Mem, role: map<nat, Role>, c: nat, pp: nat, pi: nat, junk: Page, q: nat)
    requires Tables(mem, role) && c in role && role[c].Node? && mem[c] == ZeroPage()
    requires role[c].level < 2 ==> Behind(role, c, pp, pi)
    requires q in role && q != c
    ensures var mem1 := mem[c := junk];
            PageOk(if role[c].level < 2 then Poke(mem1, pp, pi, 0) else mem1, role - {c}, q)
  {
    assert PageOk(mem, role, q);
    assert PageOk(mem, role, c);
    var n := role[q];
    if n.Node? && n.root != c {
      RemovedWalk(mem, role, c, pp, pi, junk, n.root, n.i2, n.i1);
    } else if n.Frame? && n.root != c {
      RemovedWalk(mem, role, c, pp, pi, junk, n.root, n.i2, n.i1);
    }
  }

  // ----- translations by virtual page number -----

  // The leaf entry of virtual page v.
  function LeafAt(mem: Mem, root: nat, v: nat): (e: nat) {
    Lookup(mem, root, v * PGSIZE)
  }

  ghost function FrameAt(root: nat, v: nat): (f: Role) {
    Frame(root, PX(2, v * PGSIZE), PX(1, v * PGSIZE), PX(0, v * PGSIZE))
  }

  lemma IndicesOfPage(v: nat)
    requires v < MAXVPN
    ensures Vpn(PX(2, v * PGSIZE), PX(1, v * PGSIZE), PX(0, v * PGSIZE)) == v
  {
    IndicesDetermineVpn(v * PGSIZE);
    assert (v * PGSIZE) / PGSIZE == v;
  }

  lemma PageOfIndices(i2: nat, i1: nat, i0: nat)
    requires i2 < 256 && i1 < NPTE && i0 < NPTE
    ensures var v := Vpn(i2, i1, i0);
            v < MAXVPN && PX(2, v * PGSIZE) == i2 && PX(1, v * PGSIZE) == i1 && PX(0, v * PGSIZE) == i0
  {
    var v := Vpn(i2, i1, i0);
    assert v < MAXVPN;
    IndicesOfPage(v);
    VpnInjective(PX(2, v * PGSIZE), PX(1, v * PGSIZE), PX(0, v * PGSIZE), i2, i1, i0);
  }

  // Translations of all trees are as before, except that pages lo..hi of tree r map to
  // consecutive physical pages from pa on.
  ghost predicate Pasted(mem: Mem, mem': Mem, role': map<nat, Role>, r: nat, lo: nat, hi: nat, pa: nat, perm: nat) {
    forall s, v: nat {:trigger LeafAt(mem', s, v)} {:trigger LeafAt(mem, s, v)} ::
      IsRoot(role', s) && v < MAXVPN ==>
        LeafAt(mem', s, v) == if s == r && lo <= v < hi then MakePte(pa + (v - lo) * PGSIZE, perm) else LeafAt(mem, s, v)
  }

  // Translations of all trees are as before, except that pages lo..hi of tree r are gone.
  ghost predicate Cut(mem: Mem, mem': Mem, role': map<nat, Role>, r: nat, lo: nat, hi: nat) {
    forall s, v: nat {:trigger LeafAt(mem', s, v)} {:trigger LeafAt(mem, s, v)} ::
      IsRoot(role', s) && v < MAXVPN ==>
        LeafAt(mem', s, v) == if s == r && lo <= v < hi then 0 else LeafAt(mem, s, v)
  }

  lemma SameLeavesAt(mem: Mem, mem': Mem, role': map<nat, Role>, r: nat, v: nat)
    requires SameLeaves(mem, mem', role') && IsRoot(role', r)
    ensures LeafAt(mem', r, v) == LeafAt(mem, r, v)
  {
  }

  // One changed leaf, seen by virtual page.
  lemma OneLeafAt(mem: Mem, mem': Mem, role': map<nat, Role>, r: nat, v: nat, e: nat, s: nat, w: nat)
    requires v < MAXVPN && w < MAXVPN && IsRoot(role', s)
    requires OneLeaf(mem, mem', role', r, PX(2, v * PGSIZE), PX(1, v * PGSIZE), PX(0, v * PGSIZE), e)
    ensures LeafAt(mem', s, w) == if s == r && w == v then e else LeafAt(mem, s, w)
  {
    IndicesOfPage(v);
    IndicesOfPage(w);
  }

  /** uvmcreate: a zeroed loose page becomes the root of a tree that maps nothing. */
  lemma NewRoot(mem: Mem, role: map<nat, Role>, c: nat)
    requires Tables(mem, role) && c in role && role[c].Loose? && mem[c] == ZeroPage()
    ensures Tables(mem, role[c := Node(c, 2, 0, 0)])
    ensures forall v: nat :: v < MAXVPN ==> LeafAt(mem, c, v) == 0
  {
    var role' := role[c := Node(c, 2, 0, 0)];
    forall p | p in role' ensures PageOk(mem, role', p) {
      assert PageOk(mem, role, p);
      if p != c {
        PageOkFrame(mem, role, mem, role', p);
      }
    }
    forall p, i | p in role' && role'[p].Node? && 0 <= i < NPTE && p in mem ensures EntryOk(mem, role', p, i) {
      if p != c {
        assert EntryOk(mem, role, p, i);
      }
    }
  }
}
