/** The page allocator and the user address-space operations (kernel/kalloc.c,
    kernel/vm.c). A panic of the source is a precondition here. */
module UserVm {
  import opened PageTable

  // memset(pa, 1, PGSIZE) and memset(pa, 5, PGSIZE)
  function Junk(byte: nat): (p: Page) {
    seq(NPTE, _ => byte * 0x0101_0101_0101_0101)
  }

  // The pages on the free list, linked through their first word.
  ghost predicate FreeList(mem: Mem, head: nat, free: seq<nat>)
    decreases |free|
  {
    if free == [] then head == 0
    else
      && head == free[0] != 0 && head % PGSIZE == 0
      && head in mem && head !in Elems(free[1..])
      && FreeList(mem, mem[head][0], free[1..])
  }

  ghost function Elems(s: seq<nat>): (e: set<nat>) {
    if s == [] then {} else {s[0]} + Elems(s[1..])
  }

  // Every page is either on the free list or has a role.
  ghost predicate Partition(mem: Mem, free: seq<nat>, role: map<nat, Role>) {
    && Elems(free) !! role.Keys
    && Elems(free) + role.Keys == mem.Keys
    && forall p :: p in role ==> p != 0 && p % PGSIZE == 0
  }

  // Only the pages on the list matter to the list.
  lemma {:induction false} FreeListFrame(mem: Mem, mem': Mem, head: nat, free: seq<nat>)
    requires FreeList(mem, head, free)
    requires forall p :: p in Elems(free) && p in mem ==> p in mem' && mem'[p] == mem[p]
    ensures FreeList(mem', head, free)
    decreases |free|
  {
    if free != [] {
      FreeListFrame(mem, mem', mem[head][0], free[1..]);
    }
  }

  lemma PopFree(mem: Mem, head: nat, free: seq<nat>, role: map<nat, Role>, junk: Page)
    requires FreeList(mem, head, free) && Partition(mem, free, role) && head != 0
    ensures free != [] && head in mem && head !in role
    ensures FreeList(mem[head := junk], mem[head][0], free[1..])
    ensures Partition(mem[head := junk], free[1..], role[head := Loose])
  {
    FreeListFrame(mem, mem[head := junk], mem[head][0], free[1..]);
  }

  lemma PushFree(mem: Mem, head: nat, free: seq<nat>, role: map<nat, Role>, pa: nat, junk: Page)
    requires FreeList(mem, head, free) && Partition(mem, free, role) && pa in role && junk[0] == head
    ensures FreeList(mem[pa := junk], pa, [pa] + free)
    ensures Partition(mem[pa := junk], [pa] + free, role - {pa})
  {
    assert ([pa] + free)[1..] == free;
    FreeListFrame(mem, mem[pa := junk], head, free);
  }

  // Changing a page with a role leaves the free list alone.
  lemma KeepFree(mem: Mem, head: nat, free: seq<nat>, role: map<nat, Role>, mem': Mem)
    requires FreeList(mem, head, free) && Partition(mem, free, role) && mem'.Keys == mem.Keys
    requires forall p :: p in mem && p !in role ==> mem'[p] == mem[p]
    ensures FreeList(mem', head, free) && Partition(mem', free, role)
  {
    FreeListFrame(mem, mem', head, free);
  }

  /** Conservation in numbers: free pages and pages with a role add up to all pages. */
  lemma PagesConserved(mem: Mem, head: nat, free: seq<nat>, role: map<nat, Role>)
    requires FreeList(mem, head, free) && Partition(mem, free, role)
    ensures |free| + |role| == |mem|
  {
    ListCount(mem, head, free);
    assert |Elems(free) + role.Keys| == |Elems(free)| + |role.Keys|;
  }

  lemma {:induction false} ListCount(mem: Mem, head: nat, free: seq<nat>)
    requires FreeList(mem, head, free)
    ensures |Elems(free)| == |free|
    decreases |free|
  {
    if free != [] {
      ListCount(mem, mem[head][0], free[1..]);
    }
  }

  // Roles stay, and memory that is not a table page is not touched; new pages are table
  // pages of tree r.
  ghost predicate OnlyNodesAdded(mem: Mem, role: map<nat, Role>, mem': Mem, role': map<nat, Role>, r: nat) {
    && mem'.Keys == mem.Keys
    && (forall p :: p in role ==> p in role' && role'[p] == role[p])
    && (forall p :: p in role && p in mem && !role[p].Node? ==> mem'[p] == mem[p])
    && (forall p :: p in role' && p !in role ==> role'[p].Node? && role'[p].root == r)
  }

  // Where walk(root, va) is when it has come down to the given level.
  ghost function OnPath(root: nat, va: nat, level: nat): (n: Role)
    requires level <= 2
  {
    Node(root, level, if level <= 1 then PX(2, va) else 0, if level == 0 then PX(1, va) else 0)
  }

  lemma SameLeavesTrans(mem: Mem, mem1: Mem, mem2: Mem, role1: map<nat, Role>, role2: map<nat, Role>)
    requires SameLeaves(mem, mem1, role1) && SameLeaves(mem1, mem2, role2)
    requires forall r :: IsRoot(role2, r) ==> IsRoot(role1, r)
    ensures SameLeaves(mem, mem2, role2)
  {
  }

  lemma SlotOfPage(mem: Mem, role: map<nat, Role>, root: nat, va: nat, p: nat)
    requires Tables(mem, role) && p in role && role[p] == OnPath(root, va, 0)
    ensures Lookup(mem, root, va) == mem[p][PX(0, va)]
  {
    assert PageOk(mem, role, p);
  }

  // An invalid entry on the way means there is no translation.
  lemma NoLeafYet(mem: Mem, role: map<nat, Role>, root: nat, va: nat, p: nat, level: nat)
    requires Tables(mem, role) && IsRoot(role, root) && 1 <= level <= 2
    requires p in role && role[p] == OnPath(root, va, level) && !V(mem[p][PX(level, va)])
    ensures Lookup(mem, root, va) == 0
  {
    assert PageOk(mem, role, p);
    WalkRoles(mem, role, root, PX(2, va), PX(1, va));
  }

  // The physical pages of a run of virtual pages below TRAPFRAME.
  ghost predicate InRun(p: nat, pa: nat, lo: nat, hi: nat) {
    exists v: nat :: lo <= v < hi && v < TRAPVPN && p == PageOfRun(pa, lo, v)
  }

  function PageOfRun(pa: nat, lo: nat, v: nat): (p: nat)
    requires lo <= v
  {
    pa + (v - lo) * PGSIZE
  }

  // What mapping pages lo..hi of tree r from pa on does to the owners: the mapped pages are
  // the tree's now, new pages are its table pages, nothing else changes hands or contents.
  ghost predicate MapRoles(mem: Mem, role: map<nat, Role>, mem': Mem, role': map<nat, Role>, r: nat, lo: nat, hi: nat, pa: nat) {
    && mem'.Keys == mem.Keys
    && (forall p :: p in role ==> p in role')
    && (forall p :: p in role && !InRun(p, pa, lo, hi) ==> role'[p] == role[p])
    && (forall v: nat :: lo <= v < hi && v < TRAPVPN ==>
        PageOfRun(pa, lo, v) in role' && role'[PageOfRun(pa, lo, v)] == FrameAt(r, v))
    && (forall p :: p in role && p in mem && !role[p].Node? ==> mem'[p] == mem[p])
    && (forall p :: p in role' && p !in role ==> role'[p].Node? && role'[p].root == r)
  }

  lemma MapOneLeaves(mem: Mem, mem1: Mem, role1: map<nat, Role>, mem2: Mem, role2: map<nat, Role>,
                     r: nat, v: nat, pa: nat, perm: nat, ok: bool)
    requires SameLeaves(mem, mem1, role1) && v < MAXVPN
    requires forall s :: IsRoot(role2, s) ==> IsRoot(role1, s)
    requires !ok ==> mem2 == mem1
    requires ok ==> OneLeaf(mem1, mem2, role2, r, PX(2, v * PGSIZE), PX(1, v * PGSIZE), PX(0, v * PGSIZE), MakePte(pa, perm))
    ensures Pasted(mem, mem2, role2, r, v, if ok then v + 1 else v, pa, perm)
  {
    forall s, w: nat | IsRoot(role2, s) && w < MAXVPN
      ensures LeafAt(mem2, s, w) == if ok && s == r && w == v then MakePte(pa, perm) else LeafAt(mem, s, w)
    {
      SameLeavesAt(mem, mem1, role1, s, w);
      if ok {
        OneLeafAt(mem1, mem2, role2, r, v, MakePte(pa, perm), s, w);
      }
    }
  }

  lemma MapOneRoles(mem: Mem, role: map<nat, Role>, mem1: Mem, role1: map<nat, Role>, mem2: Mem, role2: map<nat, Role>,
                    r: nat, v: nat, pa: nat, ok: bool)
    requires OnlyNodesAdded(mem, role, mem1, role1, r) && mem2.Keys == mem1.Keys
    requires v < TRAPVPN ==> pa in role && role[pa].Loose?
    requires role2 == if ok && v < TRAPVPN then role1[pa := FrameAt(r, v)] else role1
    requires forall p :: p in mem1 && (p !in role1 || !role1[p].Node?) ==> mem2[p] == mem1[p]
    ensures MapRoles(mem, role, mem2, role2, r, v, if ok then v + 1 else v, pa)
  {
    assert PageOfRun(pa, v, v) == pa;
    forall p | p in role && !InRun(p, pa, v, if ok then v + 1 else v) ensures role2[p] == role[p] {
      if ok && v < TRAPVPN {
        assert p != PageOfRun(pa, v, v);
      }
    }
  }

  lemma StillLoose(mem: Mem, role: map<nat, Role>, mem': Mem, role': map<nat, Role>, r: nat, lo: nat, v: nat, pa: nat)
    requires MapRoles(mem, role, mem', role', r, lo, v, pa) && lo <= v
    ensures PageOfRun(pa, lo, v) in role ==> PageOfRun(pa, lo, v) in role' && role'[PageOfRun(pa, lo, v)] == role[PageOfRun(pa, lo, v)]
  {
    var p := PageOfRun(pa, lo, v);
    forall w: nat | lo <= w < v ensures PageOfRun(pa, lo, w) != p {
    }
    assert !InRun(p, pa, lo, v);
  }

  lemma PastedStep(mem: Mem, mem1: Mem, role1: map<nat, Role>, mem2: Mem, role2: map<nat, Role>,
                   r: nat, lo: nat, v: nat, pa: nat, perm: nat, ok: bool)
    requires lo <= v < MAXVPN && Pasted(mem, mem1, role1, r, lo, v, pa, perm)
    requires Pasted(mem1, mem2, role2, r, v, if ok then v + 1 else v, pa + (v - lo) * PGSIZE, perm)
    requires forall s :: IsRoot(role2, s) ==> IsRoot(role1, s)
    ensures Pasted(mem, mem2, role2, r, lo, if ok then v + 1 else v, pa, perm)
  {
    forall s, w: nat | IsRoot(role2, s) && w < MAXVPN
      ensures LeafAt(mem2, s, w) == if s == r && lo <= w < (if ok then v + 1 else v) then MakePte(pa + (w - lo) * PGSIZE, perm) else LeafAt(mem, s, w)
    {
      assert LeafAt(mem1, s, w) == if s == r && lo <= w < v then MakePte(pa + (w - lo) * PGSIZE, perm) else LeafAt(mem, s, w);
    }
  }

  lemma InRunGrows(p: nat, pa: nat, lo: nat, hi: nat, hi': nat)
    requires hi <= hi'
    ensures InRun(p, pa, lo, hi) ==> InRun(p, pa, lo, hi')
  {
  }

  // Mapping makes no new trees.
  lemma RootsKept(mem: Mem, role: map<nat, Role>, mem': Mem, role': map<nat, Role>, r: nat, lo: nat, hi: nat, pa: nat)
    requires MapRoles(mem, role, mem', role', r, lo, hi, pa) && IsRoot(role, r)
    ensures forall s :: IsRoot(role', s) ==> IsRoot(role, s)
  {
  }

  lemma RunAligned(pa: nat, lo: nat, v: nat)
    requires lo <= v && pa % PGSIZE == 0
    ensures PageOfRun(pa, lo, v) % PGSIZE == 0
  {
  }

  lemma MapRolesStep(mem: Mem, role: map<nat, Role>, mem1: Mem, role1: map<nat, Role>, mem2: Mem, role2: map<nat, Role>,
                     r: nat, lo: nat, v: nat, pa: nat, ok: bool)
    requires lo <= v && MapRoles(mem, role, mem1, role1, r, lo, v, pa)
    requires MapRoles(mem1, role1, mem2, role2, r, v, if ok then v + 1 else v, PageOfRun(pa, lo, v))
    requires v < TRAPVPN ==> PageOfRun(pa, lo, v) in role1 && role1[PageOfRun(pa, lo, v)].Loose?
    ensures MapRoles(mem, role, mem2, role2, r, lo, if ok then v + 1 else v, pa)
  {
    MapRolesRoles(mem, role, mem1, role1, mem2, role2, r, lo, v, pa, ok);
    MapRolesMem(mem, role, mem1, role1, mem2, role2, r, lo, v, pa, ok);
  }

  lemma MapRolesMem(mem: Mem, role: map<nat, Role>, mem1: Mem, role1: map<nat, Role>, mem2: Mem, role2: map<nat, Role>,
                    r: nat, lo: nat, v: nat, pa: nat, ok: bool)
    requires lo <= v && MapRoles(mem, role, mem1, role1, r, lo, v, pa)
    requires MapRoles(mem1, role1, mem2, role2, r, v, if ok then v + 1 else v, PageOfRun(pa, lo, v))
    ensures mem2.Keys == mem.Keys
    ensures forall q :: q in role && q in mem && !role[q].Node? ==> mem2[q] == mem[q]
  {
    forall q | q in role && q in mem && !role[q].Node? ensures mem2[q] == mem[q] {
      if InRun(q, pa, lo, v) {
        var w: nat :| lo <= w < v && w < TRAPVPN && q == PageOfRun(pa, lo, w);
      }
    }
  }

  lemma MapRolesRoles(mem: Mem, role: map<nat, Role>, mem1: Mem, role1: map<nat, Role>, mem2: Mem, role2: map<nat, Role>,
                      r: nat, lo: nat, v: nat, pa: nat, ok: bool)
    requires lo <= v && MapRoles(mem, role, mem1, role1, r, lo, v, pa)
    requires MapRoles(mem1, role1, mem2, role2, r, v, if ok then v + 1 else v, PageOfRun(pa, lo, v))
    requires v < TRAPVPN ==> PageOfRun(pa, lo, v) in role1 && role1[PageOfRun(pa, lo, v)].Loose?
    ensures var hi := if ok then v + 1 else v;
            && (forall q :: q in role ==> q in role2)
            && (forall q :: q in role && !InRun(q, pa, lo, hi) ==> role2[q] == role[q])
            && (forall w: nat :: lo <= w < hi && w < TRAPVPN ==>
                  PageOfRun(pa, lo, w) in role2 && role2[PageOfRun(pa, lo, w)] == FrameAt(r, w))
            && (forall q :: q in role2 && q !in role ==> role2[q].Node? && role2[q].root == r)
  {
    var p, hi := PageOfRun(pa, lo, v), if ok then v + 1 else v;
    assert PageOfRun(p, v, v) == p;
    forall q | q in role1 && InRun(q, p, v, hi) ensures q == p && v < TRAPVPN {
    }
    forall q | q in role && !InRun(q, pa, lo, hi) ensures role2[q] == role[q] {
      InRunGrows(q, pa, lo, v, hi);
    }
  }

  lemma MapStep(mem: Mem, role: map<nat, Role>, mem1: Mem, role1: map<nat, Role>, mem2: Mem, role2: map<nat, Role>,
                r: nat, lo: nat, v: nat, pa: nat, perm: nat, ok: bool)
    requires lo <= v < MAXVPN && IsRoot(role1, r)
    requires Pasted(mem, mem1, role1, r, lo, v, pa, perm) && MapRoles(mem, role, mem1, role1, r, lo, v, pa)
    requires var p, hi := PageOfRun(pa, lo, v), if ok then v + 1 else v;
             && Pasted(mem1, mem2, role2, r, v, hi, p, perm) && MapRoles(mem1, role1, mem2, role2, r, v, hi, p)
             && (v < TRAPVPN ==> p in role1 && role1[p].Loose?)
    ensures var hi := if ok then v + 1 else v;
            Pasted(mem, mem2, role2, r, lo, hi, pa, perm) && MapRoles(mem, role, mem2, role2, r, lo, hi, pa)
  {
    RootsKept(mem1, role1, mem2, role2, r, v, if ok then v + 1 else v, PageOfRun(pa, lo, v));
    PastedStep(mem, mem1, role1, mem2, role2, r, lo, v, pa, perm, ok);
    MapRolesStep(mem, role, mem1, role1, mem2, role2, r, lo, v, pa, ok);
  }

  // ----- unmapping -----

  ghost predicate FrameIn(n: Role, r: nat, lo: nat, hi: nat) {
    n.Frame? && n.root == r && lo <= Vpn(n.i2, n.i1, n.i0) < hi
  }

  // What unmapping pages lo..hi of tree r does to the owners: the pages mapped there are
  // freed or come loose, nothing else changes hands or contents.
  ghost predicate UnmapRoles(mem: Mem, role: map<nat, Role>, mem': Mem, role': map<nat, Role>, r: nat, lo: nat, hi: nat, doFree: bool) {
    && mem'.Keys == mem.Keys
    && (forall p :: p in role && !FrameIn(role[p], r, lo, hi) ==> p in role' && role'[p] == role[p])
    && (forall p :: p in role && FrameIn(role[p], r, lo, hi) ==> if doFree then p !in role' else p in role' && role'[p].Loose?)
    && (forall p :: p in role' ==> p in role)
    && (forall p :: p in role' && p in mem && !role'[p].Node? ==> mem'[p] == mem[p])
  }

  lemma OneLeafThenSame(mem: Mem, mem1: Mem, mem2: Mem, role1: map<nat, Role>, role2: map<nat, Role>, n: Role, i: nat)
    requires n.Node? && OneLeaf(mem, mem1, role1, n.root, n.i2, n.i1, i, 0) && SameLeaves(mem1, mem2, role2)
    requires forall s :: IsRoot(role2, s) ==> IsRoot(role1, s)
    ensures OneLeaf(mem, mem2, role2, n.root, n.i2, n.i1, i, 0)
  {
  }

  // A leaf and the page it maps go together.
  lemma FreedLeaf(mem: Mem, role: map<nat, Role>, page: nat, i: nat, fill: Page)
    requires Tables(mem, role) && page in role && role[page].Node? && role[page].level == 0 && i < NPTE && V(mem[page][i])
    requires Vpn(role[page].i2, role[page].i1, i) < TRAPVPN
    ensures var n, pa := role[page], PTE2PA(mem[page][i]);
            && pa in role && role[pa] == Frame(n.root, n.i2, n.i1, i) && pa in mem
            && var mem', role' := mem[pa := fill][page := mem[page][i := 0]], role - {pa};
            && mem'.Keys == mem.Keys
            && Tables(mem', role') && OneLeaf(mem, mem', role', n.root, n.i2, n.i1, i, 0)
            && forall p :: p in role' && !role'[p].Node? && p in mem ==> mem'[p] == mem[p]
  {
    var n, pa := role[page], PTE2PA(mem[page][i]);
    ClearLeaf(mem, role, page, i);
    var mem', role' := mem[pa := fill][page := mem[page][i := 0]], role - {pa};
    LooseFrame(Poke(mem, page, i, 0), role[pa := Loose], mem', role');
    OneLeafThenSame(mem, Poke(mem, page, i, 0), mem', role[pa := Loose], role', n, i);
  }

  lemma CutOne(mem: Mem, mem': Mem, role': map<nat, Role>, r: nat, v: nat)
    requires v < MAXVPN
    requires OneLeaf(mem, mem', role', r, PX(2, v * PGSIZE), PX(1, v * PGSIZE), PX(0, v * PGSIZE), 0)
    ensures Cut(mem, mem', role', r, v, v + 1)
  {
    forall s, w: nat | IsRoot(role', s) && w < MAXVPN
      ensures LeafAt(mem', s, w) == if s == r && w == v then 0 else LeafAt(mem, s, w)
    {
      OneLeafAt(mem, mem', role', r, v, 0, s, w);
    }
  }

  lemma UnmapOneRoles(mem: Mem, role: map<nat, Role>, mem': Mem, role': map<nat, Role>, r: nat, v: nat, pa: nat, doFree: bool)
    requires Tables(mem, role) && IsRoot(role, r) && v < MAXVPN && mem'.Keys == mem.Keys && pa == PTE2PA(LeafAt(mem, r, v))
    requires v < TRAPVPN ==> pa in role && role[pa] == FrameAt(r, v)
    requires doFree ==> v < TRAPVPN
    requires role' == if doFree then role - {pa} else if v < TRAPVPN then role[pa := Loose] else role
    requires forall p :: p in role' && p in mem && !role'[p].Node? ==> mem'[p] == mem[p]
    ensures UnmapRoles(mem, role, mem', role', r, v, v + 1, doFree)
  {
    forall p | p in role && FrameIn(role[p], r, v, v + 1) ensures v < TRAPVPN && p == pa {
      assert PageOk(mem, role, p);
      IndicesOfPage(v);
      VpnInjective(role[p].i2, role[p].i1, role[p].i0, PX(2, v * PGSIZE), PX(1, v * PGSIZE), PX(0, v * PGSIZE));
    }
    IndicesOfPage(v);
  }

  lemma UnmapStep(mem: Mem, role: map<nat, Role>, mem1: Mem, role1: map<nat, Role>, mem2: Mem, role2: map<nat, Role>,
                  r: nat, lo: nat, v: nat, doFree: bool)
    requires lo <= v < MAXVPN && Cut(mem, mem1, role1, r, lo, v) && Cut(mem1, mem2, role2, r, v, v + 1)
    requires UnmapRoles(mem, role, mem1, role1, r, lo, v, doFree) && UnmapRoles(mem1, role1, mem2, role2, r, v, v + 1, doFree)
    ensures Cut(mem, mem2, role2, r, lo, v + 1)
    ensures UnmapRoles(mem, role, mem2, role2, r, lo, v + 1, doFree)
  {
    forall s | IsRoot(role2, s) ensures IsRoot(role1, s) {
    }
    forall s, w: nat | IsRoot(role2, s) && w < MAXVPN
      ensures LeafAt(mem2, s, w) == if s == r && lo <= w < v + 1 then 0 else LeafAt(mem, s, w)
    {
      assert LeafAt(mem1, s, w) == if s == r && lo <= w < v then 0 else LeafAt(mem, s, w);
    }
  }

  lemma PgUpMonotone(a: nat, b: nat)
    requires a <= b
    ensures PgUp(a) <= PgUp(b)
  {
  }

  // PGROUNDUP(sz) / PGSIZE
  function PgUp(sz: nat): (n: nat) {
    (sz + PGSIZE - 1) / PGSIZE
  }

  // ----- growing an address space -----

  // Pages lo..hi of tree r have been mapped to fresh memory; every other translation, owner
  // and content is as before, and any other new page is a table page of r.
  ghost predicate Grown(mem: Mem, role: map<nat, Role>, mem': Mem, role': map<nat, Role>, r: nat, lo: nat, hi: nat) {
    && mem'.Keys == mem.Keys
    && (forall p :: p in role ==> p in role' && role'[p] == role[p])
    && (forall p :: p in role && p in mem && !role[p].Node? ==> mem'[p] == mem[p])
    && (forall p :: p in role' && p !in role ==> (role'[p].Node? && role'[p].root == r) || FrameIn(role'[p], r, lo, hi))
    && (forall s, v: nat {:trigger LeafAt(mem', s, v)} {:trigger LeafAt(mem, s, v)} ::
        IsRoot(role', s) && v < MAXVPN && !(s == r && lo <= v < hi) ==> LeafAt(mem', s, v) == LeafAt(mem, s, v))
  }

  // Page v of tree r maps a page of its own with the given permissions and contents.
  ghost predicate Fresh(mem: Mem, role: map<nat, Role>, r: nat, v: nat, perm: nat, content: Page) {
    var e := LeafAt(mem, r, v);
    && V(e) && Flags(e) == (if V(perm) then perm else perm + 1)
    && PTE2PA(e) in mem && mem[PTE2PA(e)] == content
    && PTE2PA(e) in role && role[PTE2PA(e)] == FrameAt(r, v)
  }

  // mappages on one page below TRAPFRAME.
  ghost predicate OneMapped(mem: Mem, role: map<nat, Role>, mem': Mem, role': map<nat, Role>, r: nat, v: nat, pa: nat, perm: nat, ok: bool) {
    && mem'.Keys == mem.Keys
    && (forall p :: p in role ==> p in role' && role'[p] == if ok && p == pa then FrameAt(r, v) else role[p])
    && (forall p :: p in role && p in mem && !role[p].Node? ==> mem'[p] == mem[p])
    && (forall p :: p in role' && p !in role ==> role'[p].Node? && role'[p].root == r)
    && (forall s, w: nat {:trigger LeafAt(mem', s, w)} {:trigger LeafAt(mem, s, w)} :: IsRoot(role', s) && w < MAXVPN ==>
        LeafAt(mem', s, w) == if ok && s == r && w == v then MakePte(pa, perm) else LeafAt(mem, s, w))
  }

  lemma OnePage(v: nat, pa: nat)
    ensures (v * PGSIZE) / PGSIZE == v == (v * PGSIZE + PGSIZE - 1) / PGSIZE && PageOfRun(pa, v, v) == pa
    ensures v < TRAPVPN ==> v * PGSIZE + PGSIZE <= MAXVA
  {
  }

  lemma RunOfOne(mem: Mem, role: map<nat, Role>, mem': Mem, role': map<nat, Role>, r: nat, v: nat, pa: nat, perm: nat, ok: bool)
    requires v < TRAPVPN
    requires Pasted(mem, mem', role', r, v, if ok then v + 1 else v, pa, perm)
    requires MapRoles(mem, role, mem', role', r, v, if ok then v + 1 else v, pa)
    ensures OneMapped(mem, role, mem', role', r, v, pa, perm, ok)
  {
    assert PageOfRun(pa, v, v) == pa;
    forall p | p in role ensures InRun(p, pa, v, if ok then v + 1 else v) <==> ok && p == pa {
    }
  }

  lemma FreshMapped(mem: Mem, role: map<nat, Role>, mem1: Mem, role1: map<nat, Role>, mem2: Mem, role2: map<nat, Role>,
                    r: nat, v: nat, pa: nat, perm: nat, content: Page)
    requires IsRoot(role, r) && v < TRAPVPN && pa !in role && pa in mem && pa % PGSIZE == 0 && perm < 0x400
    requires mem1 == mem[pa := content] && role1 == role[pa := Loose] && SameLeaves(mem, mem1, role1)
    requires OneMapped(mem1, role1, mem2, role2, r, v, pa, perm, true)
    ensures Grown(mem, role, mem2, role2, r, v, v + 1)
    ensures Fresh(mem2, role2, r, v, perm, content)
  {
    PteRoundTrip(pa, perm);
    IndicesOfPage(v);
    assert LeafAt(mem2, r, v) == MakePte(pa, perm);
    forall s, w: nat | IsRoot(role2, s) && w < MAXVPN && !(s == r && w == v)
      ensures LeafAt(mem2, s, w) == LeafAt(mem, s, w)
    {
      assert IsRoot(role1, s);
      SameLeavesAt(mem, mem1, role1, s, w);
    }
  }

  lemma FreshFailed(mem: Mem, role: map<nat, Role>, mem1: Mem, role1: map<nat, Role>, mem2: Mem, role2: map<nat, Role>,
                    r: nat, v: nat, pa: nat, perm: nat)
    requires IsRoot(role, r) && pa !in role && pa in mem && pa in mem1
    requires mem1 == mem[pa := mem1[pa]] && role1 == role[pa := Loose] && SameLeaves(mem, mem1, role1)
    requires OneMapped(mem1, role1, mem2, role2, r, v, pa, perm, false)
    ensures Grown(mem, role, mem2, role2 - {pa}, r, v, v)
    ensures pa in role2 && role2[pa].Loose?
  {
    forall s, w: nat | IsRoot(role2 - {pa}, s) && w < MAXVPN ensures LeafAt(mem2, s, w) == LeafAt(mem, s, w) {
      assert IsRoot(role2, s);
      assert IsRoot(role1, s);
      SameLeavesAt(mem, mem1, role1, s, w);
    }
  }

  lemma GrownFree(mem: Mem, role: map<nat, Role>, mem2: Mem, role2: map<nat, Role>, mem3: Mem, role3: map<nat, Role>, r: nat, v: nat, pa: nat)
    requires Grown(mem, role, mem2, role2 - {pa}, r, v, v) && role3 == role2 - {pa} && pa !in role
    requires SameLeaves(mem2, mem3, role3) && mem3.Keys == mem2.Keys
    requires forall p :: p in role3 && p in mem2 ==> mem3[p] == mem2[p]
    ensures Grown(mem, role, mem3, role3, r, v, v)
  {
    forall s, w: nat | IsRoot(role3, s) && w < MAXVPN ensures LeafAt(mem3, s, w) == LeafAt(mem, s, w) {
      SameLeavesAt(mem2, mem3, role3, s, w);
    }
  }

  lemma GrownStep(mem: Mem, role: map<nat, Role>, mem1: Mem, role1: map<nat, Role>, mem2: Mem, role2: map<nat, Role>,
                  r: nat, lo: nat, v: nat, ok: bool)
    requires lo <= v && IsRoot(role, r) && Grown(mem, role, mem1, role1, r, lo, v)
    requires Grown(mem1, role1, mem2, role2, r, v, if ok then v + 1 else v)
    ensures Grown(mem, role, mem2, role2, r, lo, if ok then v + 1 else v)
    ensures forall s :: IsRoot(role2, s) ==> IsRoot(role1, s)
  {
    forall s | IsRoot(role2, s) ensures IsRoot(role1, s) {
    }
    forall s, w: nat | IsRoot(role2, s) && w < MAXVPN && !(s == r && lo <= w < (if ok then v + 1 else v))
      ensures LeafAt(mem2, s, w) == LeafAt(mem, s, w)
    {
      assert LeafAt(mem1, s, w) == LeafAt(mem, s, w);
    }
  }

  // A page owned as a frame is mapped where its role says.
  lemma FrameIsMapped(mem: Mem, role: map<nat, Role>, p: nat)
    requires Tables(mem, role) && p in role
    ensures role[p].Frame? ==>
              var v := Vpn(role[p].i2, role[p].i1, role[p].i0);
              v < TRAPVPN && role[p] == FrameAt(role[p].root, v) && V(LeafAt(mem, role[p].root, v))
              && PTE2PA(LeafAt(mem, role[p].root, v)) == p
  {
    assert PageOk(mem, role, p);
    if role[p].Frame? {
      PageOfIndices(role[p].i2, role[p].i1, role[p].i0);
    }
  }

  ghost predicate FreshRange(mem: Mem, role: map<nat, Role>, r: nat, lo: nat, hi: nat, perm: nat, content: Page) {
    forall w: nat :: lo <= w < hi ==> Fresh(mem, role, r, w, perm, content)
  }

  // What was there before page v of tree r was mapped is still there.
  ghost predicate KeptBut(mem: Mem, role: map<nat, Role>, mem': Mem, role': map<nat, Role>, r: nat, v: nat) {
    && mem'.Keys == mem.Keys
    && (forall p :: p in role && p in mem && !role[p].Node? ==> p in role' && role'[p] == role[p] && mem'[p] == mem[p])
    && (forall s, w: nat {:trigger LeafAt(mem', s, w)} :: IsRoot(role', s) && w < MAXVPN && !(s == r && w == v) ==>
        LeafAt(mem', s, w) == LeafAt(mem, s, w))
  }

  lemma FreshCarry(mem: Mem, role: map<nat, Role>, mem': Mem, role': map<nat, Role>, r: nat, lo: nat, v: nat, perm: nat, content: Page)
    requires v < MAXVPN && IsRoot(role', r) && KeptBut(mem, role, mem', role', r, v)
    requires FreshRange(mem, role, r, lo, v, perm, content) && Fresh(mem', role', r, v, perm, content)
    ensures FreshRange(mem', role', r, lo, v + 1, perm, content)
  {
    forall w: nat | lo <= w < v ensures Fresh(mem', role', r, w, perm, content) {
      assert Fresh(mem, role, r, w, perm, content);
      assert LeafAt(mem', r, w) == LeafAt(mem, r, w);
    }
  }

  lemma FreshStillValid(mem: Mem, role: map<nat, Role>, mem': Mem, role': map<nat, Role>, r: nat, lo: nat, v: nat, perm: nat)
    requires v < MAXVPN && IsRoot(role', r) && KeptBut(mem, role, mem', role', r, v)
    requires FreshRange(mem, role, r, lo, v, perm, ZeroPage())
    ensures forall w: nat :: lo <= w < v ==> V(LeafAt(mem', r, w))
  {
    forall w: nat | lo <= w < v ensures V(LeafAt(mem', r, w)) {
      assert Fresh(mem, role, r, w, perm, ZeroPage());
    }
  }

  lemma GrownThenCut(mem: Mem, role: map<nat, Role>, mem1: Mem, role1: map<nat, Role>, mem2: Mem, role2: map<nat, Role>, r: nat, lo: nat, v: nat)
    requires lo <= v <= TRAPVPN && IsRoot(role, r) && Tables(mem, role) && Grown(mem, role, mem1, role1, r, lo, v)
    requires Cut(mem1, mem2, role2, r, lo, v) && UnmapRoles(mem1, role1, mem2, role2, r, lo, v, true)
    requires forall w: nat :: lo <= w < v ==> LeafAt(mem, r, w) == 0
    ensures Grown(mem, role, mem2, role2, r, lo, lo)
  {
    forall p | p in role ensures !FrameIn(role[p], r, lo, v) {
      FrameIsMapped(mem, role, p);
    }
    forall s, w: nat | IsRoot(role2, s) && w < MAXVPN ensures LeafAt(mem2, s, w) == LeafAt(mem, s, w) {
      assert IsRoot(role1, s);
    }
  }

  // An address space in use: pages 0..n mapped, nothing from there to TRAPFRAME.
  ghost predicate ProcessSpace(mem: Mem, root: nat, n: nat) {
    && n <= TRAPVPN
    && (forall v: nat :: v < n ==> V(LeafAt(mem, root, v)))
    && (forall v: nat :: n <= v < TRAPVPN ==> LeafAt(mem, root, v) == 0)
  }

  lemma SpaceSoFar(mem: Mem, role: map<nat, Role>, mem': Mem, role': map<nat, Role>, r: nat, lo: nat, v: nat, perm: nat)
    requires ProcessSpace(mem, r, lo) && lo <= v <= TRAPVPN && IsRoot(role', r)
    requires Grown(mem, role, mem', role', r, lo, v) && FreshRange(mem', role', r, lo, v, perm, ZeroPage())
    ensures ProcessSpace(mem', r, v)
  {
    forall w: nat | w < v ensures V(LeafAt(mem', r, w)) {
      if w >= lo {
        assert Fresh(mem', role', r, w, perm, ZeroPage());
      }
    }
  }

  ghost function PagesOf(mem: Mem, root: nat, n: nat): (s: set<nat>) {
    if n == 0 then {} else PagesOf(mem, root, n - 1) + {PTE2PA(LeafAt(mem, root, n - 1))}
  }

  // Each mapped page below TRAPFRAME costs a physical page.
  lemma {:induction false} MappedCount(mem: Mem, role: map<nat, Role>, root: nat, n: nat)
    requires Tables(mem, role) && IsRoot(role, root) && n <= TRAPVPN
    requires forall v: nat :: v < n ==> V(LeafAt(mem, root, v))
    ensures |PagesOf(mem, root, n)| == n
    ensures forall p :: p in PagesOf(mem, root, n) ==> p in role && FrameIn(role[p], root, 0, n)
  {
    if n > 0 {
      MappedCount(mem, role, root, n - 1);
      MappedFrame(mem, role, root, n - 1);
      FrameNext(role, PagesOf(mem, root, n - 1), PTE2PA(LeafAt(mem, root, n - 1)), root, n);
    }
  }

  lemma FrameNext(role: map<nat, Role>, ps: set<nat>, pa: nat, root: nat, n: nat)
    requires n > 0 && forall p :: p in ps ==> p in role && FrameIn(role[p], root, 0, n - 1)
    requires pa in role && FrameIn(role[pa], root, n - 1, n)
    ensures pa !in ps && |ps + {pa}| == |ps| + 1
    ensures forall p :: p in ps + {pa} ==> p in role && FrameIn(role[p], root, 0, n)
  {
  }

  lemma MappedFrame(mem: Mem, role: map<nat, Role>, root: nat, v: nat)
    requires Tables(mem, role) && IsRoot(role, root) && v < TRAPVPN && V(LeafAt(mem, root, v))
    ensures var pa := PTE2PA(LeafAt(mem, root, v));
            pa in role && pa in mem && role[pa] == FrameAt(root, v) && FrameIn(role[pa], root, v, v + 1)
    ensures IsLeaf(LeafAt(mem, root, v))
  {
    IndicesOfPage(v);
    var va := v * PGSIZE;
    WalkRoles(mem, role, root, PX(2, va), PX(1, va));
    var p0 := Child(mem, Child(mem, root, PX(2, va)), PX(1, va));
    assert EntryOk(mem, role, p0, PX(0, va));
  }

  lemma RoomBelowTrap(mem: Mem, role: map<nat, Role>, head: nat, free: seq<nat>, root: nat, v: nat)
    requires Tables(mem, role) && FreeList(mem, head, free) && Partition(mem, free, role)
    requires IsRoot(role, root) && v <= TRAPVPN && |mem| <= TRAPVPN
    requires forall w: nat :: w < v ==> V(LeafAt(mem, root, w))
    ensures v < TRAPVPN
  {
    PagesConserved(mem, head, free, role);
    MappedCount(mem, role, root, v);
    var s := PagesOf(mem, root, v) + {root};
    assert root !in PagesOf(mem, root, v);
    assert s <= role.Keys;
    assert role.Keys == s + (role.Keys - s);
  }

  // ----- copying an address space -----

  // Page v of tree c is a copy of page v of tree p, in a page of its own.
  ghost predicate Copied(mem: Mem, role: map<nat, Role>, p: nat, c: nat, v: nat) {
    var e, f := LeafAt(mem, p, v), LeafAt(mem, c, v);
    && V(e) && V(f) && Flags(f) == Flags(e)
    && PTE2PA(e) in mem && PTE2PA(f) in mem && PTE2PA(f) != PTE2PA(e)
    && mem[PTE2PA(f)] == mem[PTE2PA(e)]
    && PTE2PA(e) in role && role[PTE2PA(e)] == FrameAt(p, v)
    && PTE2PA(f) in role && role[PTE2PA(f)] == FrameAt(c, v)
  }

  lemma LeafFlags(e: nat)
    ensures Flags(e) < 0x400 && (IsLeaf(Flags(e)) <==> IsLeaf(e)) && (V(Flags(e)) <==> V(e))
  {
    LowBits(e / 0x400, e % 0x400);
  }

  lemma CopiedStillValid(mem: Mem, role: map<nat, Role>, mem': Mem, role': map<nat, Role>, p: nat, c: nat, v: nat)
    requires v < MAXVPN && IsRoot(role', c) && KeptBut(mem, role, mem', role', c, v)
    requires forall w: nat :: w < v ==> Copied(mem, role, p, c, w)
    ensures forall w: nat :: w < v ==> V(LeafAt(mem', c, w))
  {
    forall w: nat | w < v ensures V(LeafAt(mem', c, w)) {
      assert Copied(mem, role, p, c, w);
    }
  }

  lemma CopyCarry(mem: Mem, role: map<nat, Role>, mem': Mem, role': map<nat, Role>, p: nat, c: nat, v: nat)
    requires Tables(mem, role) && v < TRAPVPN && p != c && IsRoot(role, p) && IsRoot(role', p) && IsRoot(role', c)
    requires KeptBut(mem, role, mem', role', c, v)
    requires forall w: nat :: w < v ==> Copied(mem, role, p, c, w)
    requires var e := LeafAt(mem, p, v);
             V(e) && PTE2PA(e) in mem && Fresh(mem', role', c, v, Flags(e), mem[PTE2PA(e)])
    ensures forall w: nat :: w < v + 1 ==> Copied(mem', role', p, c, w)
  {
    MappedFrame(mem, role, p, v);
    LeafFlags(LeafAt(mem, p, v));
    forall w: nat | w < v + 1 ensures Copied(mem', role', p, c, w) {
      assert LeafAt(mem', p, w) == LeafAt(mem, p, w);
      if w < v {
        assert Copied(mem, role, p, c, w);
        assert LeafAt(mem', c, w) == LeafAt(mem, c, w);
      }
    }
  }

  // ----- freeing a tree -----

  ghost predicate NoLeaves(mem: Mem, root: nat) {
    forall i2, i1, i0 :: 0 <= i2 < NPTE && 0 <= i1 < NPTE && 0 <= i0 < NPTE ==> Leaf(mem, root, i2, i1, i0) == 0
  }

  // A table page behind one of the first i entries of the table page with role n.
  ghost predicate Below(q: Role, n: Role, i: nat) {
    && q.Node? && n.Node? && q.root == n.root && q.level < n.level
    && (n.level == 1 ==> q.i2 == n.i2)
    && (if n.level == 2 then q.i2 else q.i1) < i
  }

  ghost function Pruned(role: map<nat, Role>, n: Role, i: nat): (r: map<nat, Role>) {
    map q | q in role && !Below(role[q], n, i) :: role[q]
  }

  lemma PrunedNone(role: map<nat, Role>, n: Role)
    ensures Pruned(role, n, 0) == role
  {
  }

  // With no leaf in the tree, a valid entry leads to a table page.
  lemma ChildNotLeaf(mem: Mem, role: map<nat, Role>, p: nat, i: nat)
    requires Tables(mem, role) && p in role && role[p].Node? && i < NPTE && V(mem[p][i]) && NoLeaves(mem, role[p].root)
    ensures role[p].level >= 1 && !IsLeaf(mem[p][i])
    ensures var c := PTE2PA(mem[p][i]);
            c in role && role[c] == ChildRole(role[p], i) && Behind(role, c, p, i)
  {
    assert PageOk(mem, role, p);
    assert EntryOk(mem, role, p, i);
    var n, e := role[p], mem[p][i];
    assert n.level == 0 ==> Leaf(mem, n.root, n.i2, n.i1, i) == e;
    assert PTE2PA(mem[p][i]) % PGSIZE == 0;
    PteRoundTrip(PTE2PA(mem[p][i]), 0);
  }

  // What an entry of p leads to: the child, and what is below the child.
  lemma PruneStep(mem: Mem, role: map<nat, Role>, role0: map<nat, Role>, p: nat, i: nat)
    requires Tables(mem, role) && p in role && role[p].Node? && role[p].level >= 1 && i < NPTE
    requires V(mem[p][i]) && role == Pruned(role0, role[p], i)
    ensures var n, c := role[p], PTE2PA(mem[p][i]);
            Pruned(role, ChildRole(n, i), NPTE) - {c} == Pruned(role0, n, i + 1)
    ensures p in Pruned(role0, role[p], i + 1)
  {
    var n, c := role[p], PTE2PA(mem[p][i]);
    assert EntryOk(mem, role, p, i);
    assert PageOk(mem, role, p);
    forall q | q in role ensures Below(role[q], n, i + 1) <==> q == c || Below(role[q], ChildRole(n, i), NPTE) {
      assert PageOk(mem, role, q);
    }
    forall q | q in role0 ensures Below(role0[q], n, i) ==> Below(role0[q], n, i + 1) {
    }
  }

  // Nothing is behind an empty entry.
  lemma EmptyStep(mem: Mem, role: map<nat, Role>, role0: map<nat, Role>, p: nat, i: nat)
    requires Tables(mem, role) && p in role && role[p].Node? && i < NPTE && NoLeaves(mem, role[p].root)
    requires !(V(mem[p][i]) && !IsLeaf(mem[p][i])) && role == Pruned(role0, role[p], i)
    ensures mem[p][i] == 0 && role == Pruned(role0, role[p], i + 1)
  {
    assert EntryOk(mem, role, p, i);
    assert PageOk(mem, role, p);
    var n := role[p];
    if V(mem[p][i]) {
      ChildNotLeaf(mem, role, p, i);
      assert false;
    }
    forall q | q in role ensures !Below(role[q], n, i + 1) {
      assert PageOk(mem, role, q);
    }
    forall q | q in role0 ensures Below(role0[q], n, i) ==> Below(role0[q], n, i + 1) {
    }
  }

  ghost predicate OfTree(n: Role, root: nat) {
    !n.Loose? && n.root == root
  }

  lemma AllUnmapped(mem: Mem, role: map<nat, Role>, mem1: Mem, role1: map<nat, Role>, root: nat, n: nat)
    requires Tables(mem1, role1) && IsRoot(role1, root) && ProcessSpace(mem, root, n)
    requires forall v: nat :: TRAPVPN <= v < MAXVPN ==> LeafAt(mem, root, v) == 0
    requires if n > 0 then Cut(mem, mem1, role1, root, 0, n) else mem1 == mem
    ensures NoLeaves(mem1, root)
  {
    forall i2, i1, i0 | 0 <= i2 < NPTE && 0 <= i1 < NPTE && 0 <= i0 < NPTE ensures Leaf(mem1, root, i2, i1, i0) == 0 {
      WalkRoles(mem1, role1, root, i2, i1);
      var p0 := Child(mem1, Child(mem1, root, i2), i1);
      if p0 != 0 {
        assert PageOk(mem1, role1, p0);
        PageOfIndices(i2, i1, i0);
        assert LeafAt(mem1, root, Vpn(i2, i1, i0)) == Leaf(mem1, root, i2, i1, i0);
      }
    }
  }

  lemma TreeGone(mem: Mem, role: map<nat, Role>, mem1: Mem, role1: map<nat, Role>, mem2: Mem, role2: map<nat, Role>, root: nat, n: nat)
    requires Tables(mem, role) && IsRoot(role, root) && ProcessSpace(mem, root, n)
    requires if n > 0 then Cut(mem, mem1, role1, root, 0, n) && UnmapRoles(mem, role, mem1, role1, root, 0, n, true)
             else mem1 == mem && role1 == role
    requires role2 == Pruned(role1, Node(root, 2, 0, 0), NPTE) - {root} && SameLeaves(mem1, mem2, role2)
    requires mem2.Keys == mem1.Keys && forall q :: q in role2 && q in mem1 ==> mem2[q] == mem1[q]
    ensures role2 == map q | q in role && !OfTree(role[q], root) :: role[q]
    ensures Cut(mem, mem2, role2, root, 0, 0)
    ensures forall q :: q in role2 && !role2[q].Node? && q in mem ==> q in mem2 && mem2[q] == mem[q]
  {
    forall q | q in role ensures q in role2 <==> !OfTree(role[q], root) {
      assert PageOk(mem, role, q);
      FrameIsMapped(mem, role, q);
    }
    forall q | q in role2 ensures q in role && role2[q] == role[q] {
    }
    forall s, v: nat | IsRoot(role2, s) && v < MAXVPN ensures LeafAt(mem2, s, v) == LeafAt(mem, s, v) {
      assert s != root && IsRoot(role1, s);
      SameLeavesAt(mem1, mem2, role2, s, v);
    }
  }

  function RamPages(end: nat, phystop: nat): (s: set<nat>) {
    set p: nat {:trigger p % PGSIZE} | end <= p < phystop && p + PGSIZE <= phystop && p % PGSIZE == 0
  }

  // PGROUNDUP(end) is below every whole page from end on.
  lemma FirstPage(end: nat, phystop: nat)
    ensures RamPages(end, phystop) == RamPages((end + PGSIZE - 1) / PGSIZE * PGSIZE, phystop)
  {
    var p := (end + PGSIZE - 1) / PGSIZE * PGSIZE;
    forall q: nat | q % PGSIZE == 0 && end <= q ensures p <= q {
    }
  }

  lemma NextPage(p: nat, phystop: nat)
    requires p % PGSIZE == 0
    ensures (p + PGSIZE) % PGSIZE == 0
    ensures p + PGSIZE <= phystop ==> p in RamPages(p, phystop)
    ensures RamPages(p, phystop) - {p} == RamPages(p + PGSIZE, phystop)
    ensures p + PGSIZE > phystop ==> RamPages(p, phystop) == {}
  {
  }

  class Vm {
    var mem: Mem
    var freelist: nat
    ghost var free: seq<nat>
    ghost var role: map<nat, Role>

    // The allocator's part of the invariant.
    ghost predicate Pages()
      reads this
    {
      FreeList(mem, freelist, free) && Partition(mem, free, role)
    }

    ghost predicate Valid()
      reads this
    {
      Pages() && Tables(mem, role)
    }

    /** kinit: all whole pages between the end of the kernel and PHYSTOP become free. */
    constructor (end: nat, phystop: nat)
      requires 0 < end
      ensures Valid() && role == map[] && mem.Keys == RamPages(end, phystop)
    {
      mem := map p | p in RamPages(end, phystop) :: ZeroPage();
      freelist, free := 0, [];
      role := map p | p in RamPages(end, phystop) :: Loose;
      new;
      var p := (end + PGSIZE - 1) / PGSIZE * PGSIZE;
      FirstPage(end, phystop);
      while p + PGSIZE <= phystop
        invariant p % PGSIZE == 0 && end <= p
        invariant Pages() && mem.Keys == RamPages(end, phystop)
        invariant role.Keys == RamPages(p, phystop)
      {
        NextPage(p, phystop);
        Kfree(p);
        p := p + PGSIZE;
      }
      NextPage(p, phystop);
      assert role.Keys == {};
    }

    /** kfree of a page nothing else uses puts it on the free list. */
    method Kfree(pa: nat)
      requires Pages() && pa in role
      modifies this
      ensures Pages() && role == old(role) - {pa} && free == [pa] + old(free)
      ensures mem == old(mem)[pa := Junk(1)[0 := old(freelist)]]
    {
      PushFree(mem, freelist, free, role, pa, Junk(1)[0 := freelist]);
      mem := mem[pa := Junk(1)];
      mem := mem[pa := mem[pa][0 := freelist]];
      assert mem == old(mem)[pa := Junk(1)[0 := old(freelist)]];
      freelist, free, role := pa, [pa] + free, role - {pa};
    }

    /** kalloc takes a page off the free list; it fails exactly when there is none. */
    method Kalloc() returns (pa: nat)
      requires Pages()
      modifies this
      ensures Pages()
      ensures pa == 0 <==> old(free) == []
      ensures pa == 0 ==> mem == old(mem) && role == old(role) && free == old(free)
      ensures pa != 0 ==> pa in old(mem) && pa !in old(role) && role == old(role)[pa := Loose] && free == old(free)[1..]
      ensures pa != 0 ==> mem == old(mem)[pa := Junk(5)]
    {
      pa := freelist;
      if pa != 0 {
        PopFree(mem, freelist, free, role, Junk(5));
        freelist := mem[pa][0];
        mem := mem[pa := Junk(5)];
        free, role := free[1..], role[pa := Loose];
      }
    }

    // kalloc followed by memset or memmove of a whole page.
    method KallocFilled(content: Page) returns (pa: nat)
      requires Valid()
      modifies this
      ensures Valid() && SameLeaves(old(mem), mem, role)
      ensures pa == 0 <==> old(free) == []
      ensures pa == 0 ==> mem == old(mem) && role == old(role)
      ensures pa != 0 ==> pa in old(mem) && pa !in old(role) && role == old(role)[pa := Loose] && mem == old(mem)[pa := content]
    {
      pa := Kalloc();
      if pa != 0 {
        KeepFree(mem, freelist, free, role, mem[pa := content]);
        mem := mem[pa := content];
        LooseFrame(old(mem), old(role), mem, role);
      }
    }

    // One level of walk's loop, at entry i of table page pt.
    method WalkDown(pt: nat, i: nat, alloc: bool) returns (child: nat)
      requires Valid() && pt in role && role[pt].Node? && role[pt].level >= 1 && i < NPTE && (role[pt].level == 2 ==> i < 256)
      modifies this
      ensures Valid() && SameLeaves(old(mem), mem, role)
      ensures OnlyNodesAdded(old(mem), old(role), mem, role, old(role)[pt].root)
      ensures child != 0 ==> child in role && role[child] == ChildRole(old(role)[pt], i)
      ensures child == 0 ==> mem == old(mem) && role == old(role) && !V(mem[pt][i]) && (alloc ==> free == [])
      ensures !alloc ==> mem == old(mem) && role == old(role) && free == old(free)
    {
      assert EntryOk(mem, role, pt, i);
      var pte := mem[pt][i];
      if V(pte) {
        child := PTE2PA(pte);
      } else if !alloc {
        child := 0;
      } else {
        child := AddTable(pt, i);
      }
    }

    // walk's new page-table page.
    method AddTable(pt: nat, i: nat) returns (child: nat)
      requires Valid() && pt in role && role[pt].Node? && role[pt].level >= 1 && i < NPTE && (role[pt].level == 2 ==> i < 256)
      requires !V(mem[pt][i])
      modifies this
      ensures Valid() && SameLeaves(old(mem), mem, role)
      ensures OnlyNodesAdded(old(mem), old(role), mem, role, old(role)[pt].root)
      ensures child != 0 ==> child in role && role[child] == ChildRole(old(role)[pt], i)
      ensures child == 0 ==> mem == old(mem) && role == old(role) && free == []
    {
      assert EntryOk(mem, role, pt, i);
      child := KallocFilled(ZeroPage());
      if child != 0 {
        Attach(pt, i, child);
      }
    }

    // Its entry in the table above.
    method Attach(pt: nat, i: nat, child: nat)
      requires Valid() && pt in role && role[pt].Node? && role[pt].level >= 1 && i < NPTE && (role[pt].level == 2 ==> i < 256)
      requires mem[pt][i] == 0 && child in role && role[child].Loose? && mem[child] == ZeroPage()
      modifies this`mem, this`role
      ensures Valid() && SameLeaves(old(mem), mem, role)
      ensures mem == Poke(old(mem), pt, i, MakePte(child, 0)) && role == old(role)[child := ChildRole(old(role)[pt], i)]
    {
      AddNode(mem, role, pt, i, child);
      KeepFree(mem, freelist, free, role, Poke(mem, pt, i, MakePte(child, 0)));
      mem := mem[pt := mem[pt][i := MakePte(child, 0)]];
      role := role[child := ChildRole(role[pt], i)];
    }

    /** walk: the slot for va in the tree's level-0 table page. With alloc it adds table
        pages as needed and fails only when memory runs out; without, it fails exactly when
        one is missing. Either way, also on failure half way, no translation changes. */
    method Walk(root: nat, va: nat, alloc: bool) returns (page: nat, i: nat)
      requires Valid() && IsRoot(role, root) && va < MAXVA
      modifies this
      ensures Valid() && SameLeaves(old(mem), mem, role) && OnlyNodesAdded(old(mem), old(role), mem, role, root)
      ensures page != 0 ==> page in role && role[page] == OnPath(root, va, 0) && i == PX(0, va)
      ensures page != 0 ==> Lookup(mem, root, va) == mem[page][i]
      ensures page == 0 && alloc ==> free == []
      ensures !alloc ==> mem == old(mem) && role == old(role) && free == old(free)
      ensures page == 0 ==> Lookup(old(mem), root, va) == 0
    {
      var pagetable := root;
      var level := 2;
      i := PX(0, va);
      while level > 0
        invariant 0 <= level <= 2
        invariant Valid() && SameLeaves(old(mem), mem, role) && OnlyNodesAdded(old(mem), old(role), mem, role, root)
        invariant pagetable in role && role[pagetable] == OnPath(root, va, level)
        invariant !alloc ==> mem == old(mem) && role == old(role) && free == old(free)
      {
        pagetable := WalkLevel(root, va, pagetable, level, alloc, old(mem), old(role));
        if pagetable == 0 {
          page := 0;
          return;
        }
        level := level - 1;
      }
      page := pagetable;
      SlotOfPage(mem, role, root, va, page);
    }

    // One round of walk's loop as progress from the start.
    method WalkLevel(root: nat, va: nat, pt: nat, level: nat, alloc: bool, ghost mem0: Mem, ghost role0: map<nat, Role>)
      returns (child: nat)
      requires Valid() && IsRoot(role0, root) && va < MAXVA && 1 <= level <= 2 && pt in role && role[pt] == OnPath(root, va, level)
      requires SameLeaves(mem0, mem, role) && OnlyNodesAdded(mem0, role0, mem, role, root)
      modifies this
      ensures Valid() && SameLeaves(mem0, mem, role) && OnlyNodesAdded(mem0, role0, mem, role, root)
      ensures child != 0 ==> child in role && role[child] == OnPath(root, va, level - 1)
      ensures child == 0 ==> Lookup(mem0, root, va) == 0 && (alloc ==> free == [])
      ensures !alloc ==> mem == old(mem) && role == old(role) && free == old(free)
    {
      IndicesDetermineVpn(va);
      child := WalkDown(pt, PX(level, va), alloc);
      SameLeavesTrans(mem0, old(mem), mem, old(role), role);
      if child == 0 {
        NoLeafYet(mem, role, root, va, pt, level);
      }
    }

    // mappages' assignment to a slot.
    method SetSlot(page: nat, i: nat, pa: nat, perm: nat)
      requires Valid() && page in role && role[page].Node? && role[page].level == 0 && i < NPTE
      requires mem[page][i] == 0 && pa % PGSIZE == 0 && perm < 0x400 && IsLeaf(perm)
      requires Vpn(role[page].i2, role[page].i1, i) < TRAPVPN ==> pa in role && role[pa].Loose?
      modifies this`mem, this`role
      ensures Valid() && mem == Poke(old(mem), page, i, MakePte(pa, perm))
      ensures var n := old(role)[page];
              && role == (if Vpn(n.i2, n.i1, i) < TRAPVPN then old(role)[pa := Frame(n.root, n.i2, n.i1, i)] else old(role))
              && OneLeaf(old(mem), mem, role, n.root, n.i2, n.i1, i, MakePte(pa, perm))
    {
      SetLeaf(mem, role, page, i, pa, perm);
      KeepFree(mem, freelist, free, role, Poke(mem, page, i, MakePte(pa, perm)));
      ghost var n := role[page];
      mem := mem[page := mem[page][i := MakePte(pa, perm)]];
      if Vpn(n.i2, n.i1, i) < TRAPVPN {
        role := role[pa := Frame(n.root, n.i2, n.i1, i)];
      }
    }

    // One round of mappages' loop.
    method MapOne(root: nat, v: nat, pa: nat, perm: nat) returns (ok: bool)
      requires Valid() && IsRoot(role, root) && v < MAXVPN && LeafAt(mem, root, v) == 0
      requires pa % PGSIZE == 0 && perm < 0x400 && IsLeaf(perm)
      requires v < TRAPVPN ==> pa in role && role[pa].Loose?
      modifies this
      ensures Valid() && Pasted(old(mem), mem, role, root, v, if ok then v + 1 else v, pa, perm)
      ensures !ok ==> free == []
      ensures MapRoles(old(mem), old(role), mem, role, root, v, if ok then v + 1 else v, pa)
    {
      IndicesOfPage(v);
      var page, i := Walk(root, v * PGSIZE, true);
      ok := page != 0;
      if ok {
        FillSlot(root, v, page, i, pa, perm, old(mem), old(role));
      } else {
        MapOneLeaves(old(mem), mem, role, mem, role, root, v, pa, perm, false);
        MapOneRoles(old(mem), old(role), mem, role, mem, role, root, v, pa, false);
      }
    }

    // The slot that walk found gets its entry; walk started from mem0 and role0.
    method FillSlot(root: nat, v: nat, page: nat, i: nat, pa: nat, perm: nat, ghost mem0: Mem, ghost role0: map<nat, Role>)
      requires Valid() && IsRoot(role0, root) && SameLeaves(mem0, mem, role) && OnlyNodesAdded(mem0, role0, mem, role, root)
      requires v < MAXVPN && LeafAt(mem0, root, v) == 0
      requires page in role && role[page] == OnPath(root, v * PGSIZE, 0) && i == PX(0, v * PGSIZE)
      requires Lookup(mem, root, v * PGSIZE) == mem[page][i]
      requires pa % PGSIZE == 0 && perm < 0x400 && IsLeaf(perm)
      requires v < TRAPVPN ==> pa in role0 && role0[pa].Loose?
      modifies this`mem, this`role
      ensures Valid() && Pasted(mem0, mem, role, root, v, v + 1, pa, perm)
      ensures MapRoles(mem0, role0, mem, role, root, v, v + 1, pa)
    {
      IndicesOfPage(v);
      SameLeavesAt(mem0, mem, role, root, v);
      SetSlot(page, i, pa, perm);
      MapOneLeaves(mem0, old(mem), old(role), mem, role, root, v, pa, perm, true);
      MapOneRoles(mem0, role0, old(mem), old(role), mem, role, root, v, pa, true);
    }

    /** mappages maps every page that va..va+size touches, to consecutive physical pages, and
        changes no other translation of any tree; when it runs out of memory it has mapped a
        prefix, up to hi. */
    method MapPages(root: nat, va: nat, size: nat, pa: nat, perm: nat) returns (ok: bool, ghost hi: nat)
      requires Valid() && IsRoot(role, root) && size > 0 && va + size <= MAXVA
      requires pa % PGSIZE == 0 && perm < 0x400 && IsLeaf(perm)
      requires forall v: nat :: va / PGSIZE <= v <= (va + size - 1) / PGSIZE ==> LeafAt(mem, root, v) == 0  // else panic "remap"
      requires forall v: nat :: va / PGSIZE <= v <= (va + size - 1) / PGSIZE && v < TRAPVPN ==>
                 PageOfRun(pa, va / PGSIZE, v) in role && role[PageOfRun(pa, va / PGSIZE, v)].Loose?
      modifies this
      ensures Valid() && va / PGSIZE <= hi <= (va + size - 1) / PGSIZE + 1
      ensures ok <==> hi == (va + size - 1) / PGSIZE + 1
      ensures !ok ==> free == []
      ensures Pasted(old(mem), mem, role, root, va / PGSIZE, hi, pa, perm)
      ensures MapRoles(old(mem), old(role), mem, role, root, va / PGSIZE, hi, pa)
    {
      var first, last := va / PGSIZE, (va + size - 1) / PGSIZE;
      var v := first;
      ok, hi := true, v;
      while v <= last
        invariant first <= v <= last + 1 && hi == v && Valid()
        invariant Pasted(old(mem), mem, role, root, first, v, pa, perm)
        invariant MapRoles(old(mem), old(role), mem, role, root, first, v, pa)
      {
        StillLoose(old(mem), old(role), mem, role, root, first, v, pa);
        ok := MapNext(root, first, v, pa, perm, old(mem), old(role));
        if !ok {
          return;
        }
        v := v + 1;
        hi := v;
      }
    }

    // One round as progress from the start.
    method MapNext(root: nat, first: nat, v: nat, pa: nat, perm: nat, ghost mem0: Mem, ghost role0: map<nat, Role>) returns (ok: bool)
      requires Valid() && IsRoot(role, root) && IsRoot(role0, root) && first <= v < MAXVPN && LeafAt(mem0, root, v) == 0
      requires pa % PGSIZE == 0 && perm < 0x400 && IsLeaf(perm)
      requires v < TRAPVPN ==> PageOfRun(pa, first, v) in role && role[PageOfRun(pa, first, v)].Loose?
      requires Pasted(mem0, mem, role, root, first, v, pa, perm) && MapRoles(mem0, role0, mem, role, root, first, v, pa)
      modifies this
      ensures Valid() && Pasted(mem0, mem, role, root, first, if ok then v + 1 else v, pa, perm)
      ensures MapRoles(mem0, role0, mem, role, root, first, if ok then v + 1 else v, pa)
      ensures !ok ==> free == []
    {
      ghost var mem1, role1 := mem, role;
      RunAligned(pa, first, v);
      ok := MapOne(root, v, PageOfRun(pa, first, v), perm);
      MapStep(mem0, role0, mem1, role1, mem, role, root, first, v, pa, perm, ok);
    }

    // kfree of a mapped page and the clearing of its slot, in the order of uvmunmap.
    method FreeSlot(page: nat, i: nat)
      requires Valid() && page in role && role[page].Node? && role[page].level == 0 && i < NPTE && V(mem[page][i])
      requires Vpn(role[page].i2, role[page].i1, i) < TRAPVPN
      modifies this
      ensures Valid() && mem.Keys == old(mem).Keys
      ensures var n, pa := old(role)[page], PTE2PA(old(mem)[page][i]);
              && pa in old(role) && old(role)[pa] == Frame(n.root, n.i2, n.i1, i)
              && role == old(role) - {pa}
              && OneLeaf(old(mem), mem, role, n.root, n.i2, n.i1, i, 0)
      ensures forall p :: p in role && !role[p].Node? ==> mem[p] == old(mem)[p]
    {
      FreedLeaf(mem, role, page, i, Junk(1)[0 := freelist]);
      Kfree(PTE2PA(mem[page][i]));
      KeepFree(mem, freelist, free, role, Poke(mem, page, i, 0));
      mem := mem[page := mem[page][i := 0]];
    }

    // The clearing alone.
    method ClearSlot(page: nat, i: nat)
      requires Valid() && page in role && role[page].Node? && role[page].level == 0 && i < NPTE && V(mem[page][i])
      modifies this`mem, this`role
      ensures Valid() && mem.Keys == old(mem).Keys
      ensures var n, pa := old(role)[page], PTE2PA(old(mem)[page][i]);
              && (Vpn(n.i2, n.i1, i) < TRAPVPN ==> pa in old(role) && old(role)[pa] == Frame(n.root, n.i2, n.i1, i))
              && role == (if Vpn(n.i2, n.i1, i) < TRAPVPN then old(role)[pa := Loose] else old(role))
              && OneLeaf(old(mem), mem, role, n.root, n.i2, n.i1, i, 0)
      ensures forall p :: p in role && !role[p].Node? ==> mem[p] == old(mem)[p]
    {
      ClearLeaf(mem, role, page, i);
      KeepFree(mem, freelist, free, role, Poke(mem, page, i, 0));
      ghost var n, pa := role[page], PTE2PA(mem[page][i]);
      mem := mem[page := mem[page][i := 0]];
      if Vpn(n.i2, n.i1, i) < TRAPVPN {
        role := role[pa := Loose];
      }
    }

    // One round of uvmunmap's loop.
    method UnmapOne(root: nat, v: nat, doFree: bool)
      requires Valid() && IsRoot(role, root) && v < MAXVPN && V(LeafAt(mem, root, v))
      requires doFree ==> v < TRAPVPN
      modifies this
      ensures Valid() && Cut(old(mem), mem, role, root, v, v + 1)
      ensures UnmapRoles(old(mem), old(role), mem, role, root, v, v + 1, doFree)
    {
      IndicesOfPage(v);
      var page, i := Walk(root, v * PGSIZE, false);
      if doFree {
        FreeSlot(page, i);
      } else {
        ClearSlot(page, i);
      }
      CutOne(old(mem), mem, role, root, v);
      UnmapOneRoles(old(mem), old(role), mem, role, root, v, PTE2PA(old(mem)[page][i]), doFree);
    }

    /** uvmunmap removes exactly the given pages of one tree, optionally freeing the
        memory they mapped; no other translation, owner or content changes. */
    method UvmUnmap(root: nat, va: nat, npages: nat, doFree: bool)
      requires Valid() && IsRoot(role, root) && va % PGSIZE == 0 && va / PGSIZE + npages <= MAXVPN
      requires forall v: nat :: va / PGSIZE <= v < va / PGSIZE + npages ==> V(LeafAt(mem, root, v))  // else panic
      requires doFree ==> va / PGSIZE + npages <= TRAPVPN
      modifies this
      ensures Valid() && Cut(old(mem), mem, role, root, va / PGSIZE, va / PGSIZE + npages)
      ensures UnmapRoles(old(mem), old(role), mem, role, root, va / PGSIZE, va / PGSIZE + npages, doFree)
    {
      var first := va / PGSIZE;
      var v := first;
      while v < first + npages
        invariant first <= v <= first + npages && Valid()
        invariant Cut(old(mem), mem, role, root, first, v)
        invariant UnmapRoles(old(mem), old(role), mem, role, root, first, v, doFree)
      {
        UnmapNext(root, first, v, doFree, old(mem), old(role));
        v := v + 1;
      }
    }

    // One round as progress from the start.
    method UnmapNext(root: nat, first: nat, v: nat, doFree: bool, ghost mem0: Mem, ghost role0: map<nat, Role>)
      requires Valid() && IsRoot(role0, root) && first <= v < MAXVPN && V(LeafAt(mem0, root, v))
      requires doFree ==> v < TRAPVPN
      requires Cut(mem0, mem, role, root, first, v) && UnmapRoles(mem0, role0, mem, role, root, first, v, doFree)
      modifies this
      ensures Valid() && Cut(mem0, mem, role, root, first, v + 1)
      ensures UnmapRoles(mem0, role0, mem, role, root, first, v + 1, doFree)
    {
      assert IsRoot(role, root);
      UnmapOne(root, v, doFree);
      UnmapStep(mem0, role0, old(mem), old(role), mem, role, root, first, v, doFree);
    }

    /** uvmdealloc: the pages between the two rounded sizes go, and are freed. */
    method UvmDealloc(root: nat, oldsz: nat, newsz: nat) returns (r: nat)
      requires Valid() && IsRoot(role, root)
      requires newsz < oldsz ==> PgUp(oldsz) <= TRAPVPN
      requires forall v: nat :: PgUp(newsz) <= v < PgUp(oldsz) ==> V(LeafAt(mem, root, v))
      modifies this
      ensures Valid() && r == (if newsz >= oldsz then oldsz else newsz)
      ensures Cut(old(mem), mem, role, root, PgUp(newsz), PgUp(oldsz))
      ensures UnmapRoles(old(mem), old(role), mem, role, root, PgUp(newsz), PgUp(oldsz), true)
    {
      if newsz >= oldsz {
        return oldsz;
      }
      if PgUp(newsz) < PgUp(oldsz) {
        UvmUnmap(root, PgUp(newsz) * PGSIZE, PgUp(oldsz) - PgUp(newsz), true);
      }
      r := newsz;
    }

    // kfree of a page that no tree uses.
    method KfreeLoose(pa: nat)
      requires Valid() && pa in role && role[pa].Loose?
      modifies this
      ensures Valid() && role == old(role) - {pa} && SameLeaves(old(mem), mem, role) && mem.Keys == old(mem).Keys
      ensures forall p :: p in role ==> mem[p] == old(mem)[p]
    {
      Kfree(pa);
      LooseFrame(old(mem), old(role), mem, role);
    }

    // mappages with size PGSIZE.
    method MapPage(root: nat, v: nat, pa: nat, perm: nat) returns (ok: bool)
      requires Valid() && IsRoot(role, root) && v < TRAPVPN && LeafAt(mem, root, v) == 0
      requires pa in role && role[pa].Loose? && perm < 0x400 && IsLeaf(perm)
      modifies this
      ensures Valid() && OneMapped(old(mem), old(role), mem, role, root, v, pa, perm, ok)
    {
      OnePage(v, pa);
      assert pa % PGSIZE == 0;
      ghost var hi;
      ok, hi := MapPages(root, v * PGSIZE, PGSIZE, pa, perm);
      RunOfOne(old(mem), old(role), mem, role, root, v, pa, perm, ok);
    }

    // What uvmalloc and uvmcopy do for each page: allocate, fill, map, and give the page
    // back if it could not be mapped.
    method MapFresh(root: nat, v: nat, perm: nat, content: Page) returns (ok: bool)
      requires Valid() && IsRoot(role, root) && v < TRAPVPN && LeafAt(mem, root, v) == 0
      requires perm < 0x400 && IsLeaf(perm)
      modifies this
      ensures Valid() && Grown(old(mem), old(role), mem, role, root, v, if ok then v + 1 else v)
      ensures ok ==> Fresh(mem, role, root, v, perm, content)
    {
      var pa := KallocFilled(content);
      if pa == 0 {
        return false;
      }
      ghost var mem1, role1 := mem, role;
      SameLeavesAt(old(mem), mem, role, root, v);
      ok := MapPage(root, v, pa, perm);
      ghost var mem2, role2 := mem, role;
      if ok {
        FreshMapped(old(mem), old(role), mem1, role1, mem2, role2, root, v, pa, perm, content);
      } else {
        FreshFailed(old(mem), old(role), mem1, role1, mem2, role2, root, v, pa, perm);
        KfreeLoose(pa);
        GrownFree(old(mem), old(role), mem2, role2, mem, role, root, v, pa);
      }
    }

    // One round of uvmalloc's or uvmcopy's loop as progress from the start.
    method GrowNext(root: nat, lo: nat, v: nat, perm: nat, content: Page, ghost mem0: Mem, ghost role0: map<nat, Role>) returns (ok: bool)
      requires Valid() && IsRoot(role0, root) && lo <= v < TRAPVPN && LeafAt(mem0, root, v) == 0
      requires perm < 0x400 && IsLeaf(perm)
      requires Grown(mem0, role0, mem, role, root, lo, v)
      modifies this
      ensures Valid() && Grown(mem0, role0, mem, role, root, lo, if ok then v + 1 else v)
      ensures ok ==> Fresh(mem, role, root, v, perm, content)
      ensures IsRoot(role, root) && KeptBut(old(mem), old(role), mem, role, root, v)
    {
      assert IsRoot(role, root);
      ok := MapFresh(root, v, perm, content);
      GrownStep(mem0, role0, old(mem), old(role), mem, role, root, lo, v, ok);
    }

    /** uvmalloc on a process of size oldsz, for any newsz: either every page up to newsz is
        mapped, the new ones to zeroed pages of their own, or, out of memory, every
        translation and every page's owner is as before but for added table pages. As
        physical memory is smaller than the address space below TRAPFRAME, it never gets
        as far as to remap the trapframe. */
    method UvmAlloc(root: nat, oldsz: nat, newsz: nat, xperm: nat) returns (r: nat, ghost ok: bool)
      requires Valid() && IsRoot(role, root) && xperm in {0, 4, 8, 12}
      requires |mem| <= TRAPVPN && ProcessSpace(mem, root, PgUp(oldsz))
      modifies this
      ensures Valid()
      ensures newsz < oldsz ==> r == oldsz && !ok && mem == old(mem) && role == old(role)
      ensures newsz >= oldsz ==> r == if ok then newsz else 0
      ensures ok ==> ProcessSpace(mem, root, PgUp(newsz))
      ensures ok ==> FreshRange(mem, role, root, PgUp(oldsz), PgUp(newsz), 0x12 + xperm, ZeroPage())
      ensures Grown(old(mem), old(role), mem, role, root, PgUp(oldsz), if ok then PgUp(newsz) else PgUp(oldsz))
    {
      ok := false;
      if newsz < oldsz {
        return oldsz, false;
      }
      PgUpMonotone(oldsz, newsz);
      var done := GrowRange(root, PgUp(oldsz), PgUp(newsz), 0x12 + xperm);
      ok := done;
      r := if done then newsz else 0;
    }

    // One round of uvmalloc's loop, with the way out.
    method GrowRound(root: nat, lo: nat, v: nat, perm: nat, ghost mem0: Mem, ghost role0: map<nat, Role>) returns (ok: bool)
      requires Valid() && Tables(mem0, role0) && IsRoot(role0, root) && IsRoot(role, root) && perm < 0x400 && IsLeaf(perm)
      requires lo <= v <= TRAPVPN && |mem| <= TRAPVPN && ProcessSpace(mem0, root, lo)
      requires Grown(mem0, role0, mem, role, root, lo, v) && FreshRange(mem, role, root, lo, v, perm, ZeroPage())
      modifies this
      ensures Valid() && Grown(mem0, role0, mem, role, root, lo, if ok then v + 1 else lo)
      ensures ok ==> v < TRAPVPN && IsRoot(role, root) && FreshRange(mem, role, root, lo, v + 1, perm, ZeroPage())
    {
      SpaceSoFar(mem0, role0, mem, role, root, lo, v, perm);
      RoomBelowTrap(mem, role, freelist, free, root, v);
      ok := GrowNext(root, lo, v, perm, ZeroPage(), mem0, role0);
      if ok {
        FreshCarry(old(mem), old(role), mem, role, root, lo, v, perm, ZeroPage());
      } else {
        FreshStillValid(old(mem), old(role), mem, role, root, lo, v, perm);
        Shrink(root, lo, v, mem0, role0);
      }
    }

    // uvmalloc's loop, by page number.
    method GrowRange(root: nat, lo: nat, hi: nat, perm: nat) returns (ok: bool)
      requires Valid() && IsRoot(role, root) && perm < 0x400 && IsLeaf(perm) && lo <= hi
      requires |mem| <= TRAPVPN && ProcessSpace(mem, root, lo)
      modifies this
      ensures Valid() && Grown(old(mem), old(role), mem, role, root, lo, if ok then hi else lo)
      ensures ok ==> ProcessSpace(mem, root, hi) && FreshRange(mem, role, root, lo, hi, perm, ZeroPage())
    {
      var v := lo;
      while v < hi
        invariant lo <= v <= hi && v <= TRAPVPN && Valid() && IsRoot(role, root)
        invariant Grown(old(mem), old(role), mem, role, root, lo, v)
        invariant FreshRange(mem, role, root, lo, v, perm, ZeroPage())
      {
        ok := GrowRound(root, lo, v, perm, old(mem), old(role));
        if !ok {
          return;
        }
        v := v + 1;
      }
      ok := true;
      SpaceSoFar(old(mem), old(role), mem, role, root, lo, v, perm);
    }

    // uvmalloc's way out.
    method Shrink(root: nat, lo: nat, v: nat, ghost mem0: Mem, ghost role0: map<nat, Role>)
      requires Valid() && Tables(mem0, role0) && IsRoot(role0, root) && lo <= v <= TRAPVPN
      requires Grown(mem0, role0, mem, role, root, lo, v)
      requires forall w: nat :: lo <= w < v ==> V(LeafAt(mem, root, w)) && LeafAt(mem0, root, w) == 0
      modifies this
      ensures Valid() && Grown(mem0, role0, mem, role, root, lo, lo)
    {
      ghost var mem1, role1 := mem, role;
      assert PgUp(v * PGSIZE) == v && PgUp(lo * PGSIZE) == lo;
      var r := UvmDealloc(root, v * PGSIZE, lo * PGSIZE);
      GrownThenCut(mem0, role0, mem1, role1, mem, role, root, lo, v);
    }

    /** uvmcopy: on success every page of the parent below sz has a page of its own in the
        child with equal permissions and equal contents; out of memory, all translations are
        as before but for added table pages of the child. The parent is never touched. */
    method UvmCopy(parent: nat, child: nat, sz: nat) returns (ok: bool)
      requires Valid() && IsRoot(role, parent) && IsRoot(role, child) && parent != child && PgUp(sz) <= TRAPVPN
      requires forall v: nat :: v < PgUp(sz) ==> V(LeafAt(mem, parent, v)) && LeafAt(mem, child, v) == 0
      modifies this
      ensures Valid() && Grown(old(mem), old(role), mem, role, child, 0, if ok then PgUp(sz) else 0)
      ensures ok ==> forall v: nat :: v < PgUp(sz) ==> Copied(mem, role, parent, child, v)
    {
      var n := PgUp(sz);
      var v := 0;
      while v < n
        invariant 0 <= v <= n && Valid() && IsRoot(role, parent) && IsRoot(role, child)
        invariant Grown(old(mem), old(role), mem, role, child, 0, v)
        invariant forall w: nat :: w < v ==> Copied(mem, role, parent, child, w)
      {
        ok := CopyRound(parent, child, v, old(mem), old(role));
        if !ok {
          return;
        }
        v := v + 1;
      }
      ok := true;
    }

    // One round of uvmcopy's loop, with the way out.
    method CopyRound(parent: nat, child: nat, v: nat, ghost mem0: Mem, ghost role0: map<nat, Role>) returns (ok: bool)
      requires Valid() && Tables(mem0, role0) && IsRoot(role0, child) && IsRoot(role, parent) && IsRoot(role, child) && parent != child
      requires v < TRAPVPN && V(LeafAt(mem0, parent, v))
      requires forall w: nat :: w <= v ==> LeafAt(mem0, child, w) == 0
      requires Grown(mem0, role0, mem, role, child, 0, v)
      requires forall w: nat :: w < v ==> Copied(mem, role, parent, child, w)
      modifies this
      ensures Valid() && Grown(mem0, role0, mem, role, child, 0, if ok then v + 1 else 0)
      ensures ok ==> IsRoot(role, parent) && IsRoot(role, child)
      ensures ok ==> forall w: nat :: w < v + 1 ==> Copied(mem, role, parent, child, w)
    {
      var page, i := Walk(parent, v * PGSIZE, false);
      var pte := mem[page][i];
      MappedFrame(mem, role, parent, v);
      LeafFlags(pte);
      ok := GrowNext(child, 0, v, Flags(pte), mem[PTE2PA(pte)], mem0, role0);
      if ok {
        CopyCarry(old(mem), old(role), mem, role, parent, child, v);
      } else {
        CopiedStillValid(old(mem), old(role), mem, role, parent, child, v);
        Shrink(child, 0, v, mem0, role0);
      }
    }

    /** freewalk gives back the table page p and every table page below it, and no other
        page; with no leaf left in the tree it meets none. The entry that led to p, which
        the caller clears next, is the only one left dangling. */
    method FreeWalk(p: nat, ghost pp: nat, ghost pi: nat)
      requires Valid() && p in role && role[p].Node? && NoLeaves(mem, role[p].root)
      requires role[p].level < 2 ==> Behind(role, p, pp, pi)
      modifies this
      ensures Pages() && role == Pruned(old(role), old(role)[p], NPTE) - {p}
      ensures mem.Keys == old(mem).Keys && forall q :: q in role ==> mem[q] == old(mem)[q]
      ensures old(role)[p].level < 2 ==> pp in role && pp in mem && pi < NPTE
      ensures var mem' := if old(role)[p].level < 2 then Poke(mem, pp, pi, 0) else mem;
              Tables(mem', role) && SameLeaves(old(mem), mem', role)
      decreases role[p].level, 3
    {
      ghost var n := role[p];
      FreeEntries(p, n);
      FreeSelf(p, n, pp, pi, old(mem), old(role));
    }

    // freewalk's loop.
    method FreeEntries(p: nat, ghost n: Role)
      requires Valid() && p in role && role[p] == n && n.Node? && NoLeaves(mem, n.root)
      modifies this
      ensures Freeing(p, n, NPTE, old(mem), old(role))
      decreases n.level, 2
    {
      var i := 0;
      StartFreeing(p, n);
      while i < NPTE
        invariant 0 <= i <= NPTE && Freeing(p, n, i, old(mem), old(role))
      {
        FreeEntry(p, i, n, old(mem), old(role));
        i := i + 1;
      }
    }

    // The kfree at the end of freewalk.
    method FreeSelf(p: nat, ghost n: Role, ghost pp: nat, ghost pi: nat, ghost mem0: Mem, ghost role0: map<nat, Role>)
      requires Freeing(p, n, NPTE, mem0, role0) && p in role0 && role0[p] == n && (n.level < 2 ==> Behind(role0, p, pp, pi))
      modifies this
      ensures Pages() && role == Pruned(role0, n, NPTE) - {p}
      ensures mem.Keys == mem0.Keys && forall q :: q in role ==> mem[q] == mem0[q]
      ensures n.level < 2 ==> pp in role && pp in mem && pi < NPTE
      ensures var mem' := if n.level < 2 then Poke(mem, pp, pi, 0) else mem;
              Tables(mem', role) && SameLeaves(mem0, mem', role)
    {
      assert mem[p] == ZeroPage();
      RemoveNode(mem, role, p, pp, pi, Junk(1)[0 := freelist]);
      Kfree(p);
      ghost var mem' := if n.level < 2 then Poke(mem, pp, pi, 0) else mem;
      SameLeavesTrans(mem0, old(mem), mem', old(role), role);
    }

    // freewalk has dealt with the entries of page p before i.
    ghost predicate Freeing(p: nat, n: Role, i: nat, mem0: Mem, role0: map<nat, Role>)
      reads this
    {
      && Valid() && n.Node? && i <= NPTE
      && p in role && p in mem && role[p] == n && role == Pruned(role0, n, i)
      && mem.Keys == mem0.Keys && (forall q :: q in role && q != p && q in mem ==> mem[q] == mem0[q])
      && SameLeaves(mem0, mem, role) && NoLeaves(mem, n.root)
      && (forall j :: 0 <= j < i ==> mem[p][j] == 0)
    }

    lemma StartFreeing(p: nat, n: Role)
      requires Valid() && p in role && role[p] == n && n.Node? && NoLeaves(mem, n.root)
      ensures Freeing(p, n, 0, mem, role)
    {
      PrunedNone(role, n);
    }

    // One round of freewalk's loop.
    method FreeEntry(p: nat, i: nat, ghost n: Role, ghost mem0: Mem, ghost role0: map<nat, Role>)
      requires i < NPTE && Freeing(p, n, i, mem0, role0)
      modifies this
      ensures Freeing(p, n, i + 1, mem0, role0)
      decreases n.level, 1
    {
      assert EntryOk(mem, role, p, i);
      assert PageOk(mem, role, p);
      var pte := mem[p][i];
      if V(pte) && !IsLeaf(pte) {
        ChildNotLeaf(mem, role, p, i);
        PruneStep(mem, role, role0, p, i);
        FreeChild(p, i, n);
        SameLeavesTrans(mem0, old(mem), mem, old(role), role);
      } else {
        EmptyStep(mem, role, role0, p, i);
      }
    }

    // The recursive call and the assignment after it.
    method FreeChild(p: nat, i: nat, ghost n: Role)
      requires Valid() && p in role && role[p] == n && n.Node? && n.level >= 1 && i < NPTE && NoLeaves(mem, n.root)
      requires V(mem[p][i]) && Behind(role, PTE2PA(mem[p][i]), p, i)
      modifies this
      ensures Valid() && role == Pruned(old(role), ChildRole(n, i), NPTE) - {PTE2PA(old(mem)[p][i])} && p in role
      ensures mem.Keys == old(mem).Keys && mem[p] == old(mem)[p][i := 0]
      ensures forall q :: q in role && q != p ==> mem[q] == old(mem)[q]
      ensures SameLeaves(old(mem), mem, role)
      decreases n.level, 0
    {
      FreeWalk(PTE2PA(mem[p][i]), p, i);
      KeepFree(mem, freelist, free, role, Poke(mem, p, i, 0));
      mem := mem[p := mem[p][i := 0]];
    }

    /** uvmfree: with the trap pages already unmapped, the whole tree and all memory it maps
        go back to the free list, and nothing else does. */
    method UvmFree(root: nat, sz: nat)
      requires Valid() && IsRoot(role, root) && ProcessSpace(mem, root, PgUp(sz))
      requires forall v: nat :: TRAPVPN <= v < MAXVPN ==> LeafAt(mem, root, v) == 0
      modifies this
      ensures Valid() && role == map q | q in old(role) && !OfTree(old(role)[q], root) :: old(role)[q]
      ensures Cut(old(mem), mem, role, root, 0, 0)
      ensures forall q :: q in role && !role[q].Node? ==> mem[q] == old(mem)[q]
    {
      if sz > 0 {
        UvmUnmap(root, 0, PgUp(sz), true);
      }
      ghost var mem1, role1 := mem, role;
      AllUnmapped(old(mem), old(role), mem, role, root, PgUp(sz));
      FreeWalk(root, 0, 0);
      TreeGone(old(mem), old(role), mem1, role1, mem, role, root, PgUp(sz));
    }

    /** uvmcreate: an empty address space, unless there is no page for its root. */
    method UvmCreate() returns (root: nat)
      requires Valid()
      modifies this
      ensures Valid() && (root == 0 <==> old(free) == [])
      ensures root == 0 ==> role == old(role) && mem == old(mem)
      ensures root != 0 ==>
                && root !in old(role) && role == old(role)[root := Node(root, 2, 0, 0)]
                && ProcessSpace(mem, root, 0)
                && forall v: nat :: v < MAXVPN ==> LeafAt(mem, root, v) == 0
    {
      root := KallocFilled(ZeroPage());
      if root != 0 {
        NewRoot(mem, role, root);
        role := role[root := Node(root, 2, 0, 0)];
      }
    }
  }
}
