/** link, unlink, create and iput on the inodes of one file system (kernel/sysfile.c, kernel/fs.c),
    each call atomic. Paths are already resolved: a caller passes the inode that namei or
    nameiparent found; the call takes and drops its reference. */
module NameSpace {
  import opened Common
  import opened LinkCount

  const NOLINK: Inode := Inode(Free, 0, [])

  const NINODE: nat := 50    // inodes that fit in memory

  // How many inodes have references, each of them a slot of the table in memory.
  function Held(refs: seq<nat>): (n: nat) {
    if refs == [] then 0 else Held(refs[..|refs| - 1]) + if refs[|refs| - 1] > 0 then 1 else 0
  }

  lemma {:induction false} HeldSet(refs: seq<nat>, i: nat, v: nat)
    requires i < |refs|
    ensures Held(refs[i := v]) == Held(refs) - (if refs[i] > 0 then 1 else 0) + (if v > 0 then 1 else 0)
  {
    var n := |refs| - 1;
    if i < n {
      HeldSet(refs[..n], i, v);
      assert refs[i := v][..n] == refs[..n][i := v];
    } else {
      assert refs[i := v][..n] == refs[..n];
    }
  }

  lemma {:induction false} HeldNone(refs: seq<nat>)
    requires forall i :: 0 <= i < |refs| ==> refs[i] == 0
    ensures Held(refs) == 0
  {
    if refs != [] {
      HeldNone(refs[..|refs| - 1]);
    }
  }

  // iget of inode i finds no slot for it: it is not in memory, and the table is full.
  predicate NoSlot(refs: seq<nat>, i: nat)
    requires i < |refs|
  {
    refs[i] == 0 && Held(refs) >= NINODE
  }

  function More(refs: seq<nat>, i: nat): (r: seq<nat>)
    requires i < |refs|
  {
    refs[i := refs[i] + 1]
  }

  // The inode that dirlookup finds: the first entry in use with the name, or 0.
  function Lookup(ents: seq<Dirent>, name: string): (i: nat) {
    if ents == [] then 0
    else if ents[0].inum != 0 && ents[0].name == name then ents[0].inum
    else Lookup(ents[1..], name)
  }

  lemma {:induction false} LookupAt(ents: seq<Dirent>, name: string, off: nat)
    requires off < |ents| && ents[off].inum != 0 && ents[off].name == name
    requires forall k :: 0 <= k < off && ents[k].inum != 0 ==> ents[k].name != name
    ensures Lookup(ents, name) == ents[off].inum
  {
    if off > 0 {
      LookupAt(ents[1..], name, off - 1);
    }
  }

  // mkfs's first inode: the root directory, which "." and ".." both name.
  function RootOnly(n: nat): (s: seq<Inode>)
    requires n > ROOT
    ensures |s| == n && s[ROOT] == Inode(Dir, 1, [Dirent(ROOT, "."), Dirent(ROOT, "..")])
    ensures forall i :: 0 <= i < n && i != ROOT ==> s[i] == NOLINK
  {
    seq(n, i => if i == ROOT then Inode(Dir, 1, [Dirent(ROOT, "."), Dirent(ROOT, "..")]) else NOLINK)
  }

  lemma RootOk(n: nat)
    requires n > ROOT
    ensures Tree(RootOnly(n)) && Counted(RootOnly(n))
  {
    var s := RootOnly(n);
    forall i | 1 <= i < n ensures s[i].nlink == Tally(s, i) {
      TallyOnly(s, ROOT, i);
      EmptyShare(s[ROOT], ROOT, i);
    }
  }

  // refs[i] references are held; valid[i] says that the copy in memory has been read.
  ghost predicate RefsOk(s: seq<Inode>, refs: seq<nat>, valid: seq<bool>) {
    && |refs| == |s| == |valid|
    && (forall i :: 0 <= i < |s| && refs[i] > 0 ==> s[i].typ != Free)
    && (forall i :: 0 <= i < |s| && s[i].typ != Free && s[i].nlink == 0 ==> refs[i] > 0 && valid[i])
  }

  // Copies in memory that somebody refers to stay read.
  ghost predicate StaysValid(refs: seq<nat>, v: seq<bool>, w: seq<bool>) {
    && |refs| == |v| == |w|
    && forall i :: 0 <= i < |v| && refs[i] > 0 && v[i] ==> w[i]
  }

  // A slot for one more entry exists, or the directory can grow.
  ghost predicate HasRoom(n: Inode, full: bool) {
    !full || exists k :: 0 <= k < |n.ents| && n.ents[k].inum == 0
  }

  /** An entry in use names an inode that is allocated, but for ".." of a directory that has
      been removed while in use: its parent may be gone. */
  lemma DanglesIff(s: seq<Inode>, d: nat, k: nat)
    requires Tree(s) && d < |s| && s[d].typ == Dir && k < |s[d].ents| && s[d].ents[k].inum != 0
    ensures s[d].ents[k].inum < |s| && |s[d].ents| >= 2 && s[d].ents[1].inum < |s|
    ensures s[s[d].ents[k].inum].typ == Free <==> k == 1 && s[d].nlink == 0 && s[s[d].ents[1].inum].typ == Free
    ensures s[d].ents[k].name == ".." <==> k == 1
  {
    assert DirOk(s, d) && EntOk(s, d, k);
    if k == 1 && s[d].nlink > 0 && d != ROOT {
      assert HasParent(s, d);
    }
  }

  // dirlookup of ".." finds an inode that is gone.
  ghost predicate Dangling(s: seq<Inode>, d: nat) {
    && d < |s| && s[d].typ == Dir && s[d].nlink == 0
    && |s[d].ents| >= 2 && s[d].ents[1].inum < |s| && s[s[d].ents[1].inum].typ == Free
  }

  lemma EntriesInRange(s: seq<Inode>, d: nat)
    requires Tree(s) && d < |s| && s[d].typ == Dir
    ensures forall j :: 0 <= j < |s[d].ents| ==> s[d].ents[j].inum < |s|
  {
    forall j | 0 <= j < |s[d].ents| ensures s[d].ents[j].inum < |s| {
      assert DirOk(s, d) && EntOk(s, d, j);
    }
  }

  // dirlookup of the name meets iget's panic.
  ghost predicate LookupPanics(s: seq<Inode>, refs: seq<nat>, d: nat, name: string) {
    && d < |s| && !Absent(s[d], name)
    && Lookup(s[d].ents, name) < |refs| && NoSlot(refs, Lookup(s[d].ents, name))
  }

  // Whether one more link, and its entry in dp, leave everything consistent.
  lemma LinkedOk(s: seq<Inode>, refs: seq<nat>, v: seq<bool>, w: seq<bool>, i: nat, d: nat, k: nat, name: string)
    requires Tree(s) && Counted(s) && RefsOk(s, refs, v) && StaysValid(refs, v, w) && 1 <= i < |s| && d < |s|
    requires s[i].typ != Free && s[i].typ != Dir && s[d].typ == Dir && FreeSlot(s[d], k) && Absent(s[d], name)
    ensures var r := Linking(s, i, d, k, name);
            && (Counted(r) <==> s[d].nlink > 0 && s[i].nlink < MAXLINK)
            && (s[d].nlink > 0 && s[i].nlink < MAXLINK ==> Tree(r) && RefsOk(r, refs, w))
  {
    assert DirOk(s, d);
    assert s[d].ents[0].name == ".";
    LinkCounts(s, i, d, k, name);
    if s[d].nlink > 0 && s[i].nlink < MAXLINK {
      LinkTree(s, i, d, k, name);
    }
  }

  // After unlink the inode is gone if nobody has it open.
  ghost function Unlinked(s: seq<Inode>, refs: seq<nat>, d: nat, k: nat): (r: seq<Inode>)
    requires d < |s| && k < |s[d].ents| && s[d].ents[k].inum < |s| == |refs|
  {
    var i, r := s[d].ents[k].inum, Removing(s, d, k);
    if r[i].nlink == 0 && refs[i] == 0 then r[i := NOLINK] else r
  }

  lemma UnlinkedOk(s: seq<Inode>, refs: seq<nat>, v: seq<bool>, w: seq<bool>, d: nat, k: nat)
    requires Tree(s) && Counted(s) && RefsOk(s, refs, v) && StaysValid(refs, v, w) && CanRemove(s, d, k)
    requires refs[s[d].ents[k].inum] > 0 ==> w[s[d].ents[k].inum]
    ensures var r := Unlinked(s, refs, d, k); Tree(r) && Counted(r) && RefsOk(r, refs, w)
  {
    RemovedLinks(s, d, k);
    UnlinkTree(s, d, k);
    UnlinkCounts(s, d, k);
    if s[s[d].ents[k].inum].nlink == 1 {
      FreeOk(Removing(s, d, k), s[d].ents[k].inum);
    }
  }

  lemma CreatedOk(s: seq<Inode>, refs: seq<nat>, v: seq<bool>, w: seq<bool>, i: nat, typ: Type, d: nat, k: nat, name: string)
    requires Tree(s) && Counted(s) && RefsOk(s, refs, v) && StaysValid(refs, v, w)
    requires 1 <= i < |s| && s[i].typ == Free && typ != Free
    requires d < |s| && s[d].typ == Dir && FreeSlot(s[d], k) && Absent(s[d], name)
    ensures var r := Creating(s, i, typ, d, k, name);
            && (Counted(r) <==> s[d].nlink > 0 && CountFits(s[d], typ))
            && (s[d].nlink > 0 && CountFits(s[d], typ) ==> Tree(r) && RefsOk(r, refs[i := 1], w))
  {
    assert DirOk(s, d);
    assert s[d].ents[0].name == ".";
    CreateCounts(s, i, typ, d, k, name);
    if s[d].nlink > 0 && CountFits(s[d], typ) {
      CreateTree(s, i, typ, d, k, name);
    }
  }

  // The root directory lists the first i names, each a file of its own with one link.
  ghost predicate Made(s: seq<Inode>, names: seq<string>, i: nat) {
    && i <= |names| && |s| >= |names| + 2
    && (forall j :: i + 2 <= j < |s| ==> s[j] == NOLINK)
    && (forall j :: 2 <= j < i + 2 ==> s[j] == Inode(File, 1, []))
    && |s[ROOT].ents| == i + 2 && s[ROOT].nlink == 1
    && s[ROOT].ents[0].name == "." && s[ROOT].ents[1].name == ".."
    && (forall j :: 2 <= j < i + 2 ==> s[ROOT].ents[j] == Dirent(j, names[j - 2]))
  }

  lemma MadeAbsent(s: seq<Inode>, names: seq<string>, i: nat, name: string)
    requires Made(s, names, i) && name != "." && name != ".."
    requires forall j :: 0 <= j < i ==> names[j] != name
    ensures Absent(s[ROOT], name)
  {
  }

  lemma MadeNext(s: seq<Inode>, names: seq<string>, i: nat)
    requires Made(s, names, i) && i < |names|
    ensures Made(Creating(s, i + 2, File, ROOT, i + 2, names[i]), names, i + 1)
  {
  }

  // A directory that is linked stays so when something is created in it.
  lemma ParentStays(s: seq<Inode>, i: nat, typ: Type, d: nat, k: nat, name: string)
    requires Tree(s) && i < |s| && d < |s| && i != d && k <= |s[d].ents|
    ensures var r := Creating(s, i, typ, d, k, name);
            |r| == |s| && (r[d].nlink == 0 ==> s[d].nlink == 0)
  {}

  // No entry that unlink may remove is called "." or "..",
  lemma NeverRemovable(s: seq<Inode>, d: nat, name: string)
    requires Tree(s) && d < |s| && s[d].typ == Dir && (name == "." || name == "..")
    ensures forall k: nat :: CanRemove(s, d, k) ==> s[d].ents[k].name != name
  {
    forall k: nat | CanRemove(s, d, k) ensures s[d].ents[k].name != name {
      assert EntOk(s, d, k);
    }
  }

  // and none has the name of an entry that it may not.
  lemma OthersDiffer(s: seq<Inode>, d: nat, off: nat)
    requires Tree(s) && d < |s| && s[d].typ == Dir && off < |s[d].ents| && s[d].ents[off].inum != 0 && !CanRemove(s, d, off)
    ensures forall k: nat :: CanRemove(s, d, k) ==> s[d].ents[k].name != s[d].ents[off].name
  {
    forall k: nat | CanRemove(s, d, k) ensures s[d].ents[k].name != s[d].ents[off].name {
      assert TwoOk(s, d, k, off) && TwoOk(s, d, off, k);
    }
  }

  // create of a file accepts a file or a device that is there already.
  predicate Opens(typ: Type, found: Type) {
    typ == File && (found == File || found == Device)
  }

  ghost predicate HasFree(s: seq<Inode>) {
    exists i :: 1 <= i < |s| && s[i].typ == Free
  }

  // An inode has been marked allocated, and nothing else has happened.
  ghost predicate HalfMade(s: seq<Inode>, r: seq<Inode>, typ: Type) {
    exists i :: 1 <= i < |s| && s[i].typ == Free && r == s[i := Inode(typ, 0, [])]
  }

  /** The panics of sys_link: iget's for the file, the parent or the name it finds there, with those
      before counted, and ilock's on a file that is gone, which only ".." can lead to. */
  ghost predicate LinkPanics(s: seq<Inode>, refs: seq<nat>, from: Option<nat>, parent: Option<nat>, name: string)
    requires |refs| == |s| && (from.Some? ==> from.value < |s|) && (parent.Some? ==> parent.value < |s|)
  {
    from.Some? &&
    (|| NoSlot(refs, from.value)
     || s[from.value].typ == Free
     || (s[from.value].typ != Dir && parent.Some? && GetPanics(s, More(refs, from.value), parent.value, name)))
  }

  // nameiparent's iget of the directory, then dirlookup in it.
  ghost predicate GetPanics(s: seq<Inode>, refs: seq<nat>, d: nat, name: string)
    requires d < |refs|
  {
    NoSlot(refs, d) || LookupPanics(s, More(refs, d), d, name)
  }

  ghost predicate UnlinkPanics(s: seq<Inode>, refs: seq<nat>, parent: Option<nat>, name: string)
    requires |refs| == |s| && (parent.Some? ==> parent.value < |s|)
  {
    parent.Some? && if name == "." || name == ".." then NoSlot(refs, parent.value) else GetPanics(s, refs, parent.value, name)
  }

  /** The panics of create: iget's for the parent, then, with it counted, for the name it finds or
      for the new inode, and ilock's on ".." of a removed directory whose parent is gone. */
  ghost predicate CreatePanics(s: seq<Inode>, refs: seq<nat>, parent: Option<nat>, name: string)
    requires |refs| == |s| && (parent.Some? ==> parent.value < |s|)
  {
    parent.Some? &&
    (|| GetPanics(s, refs, parent.value, name)
     || (name == ".." && Dangling(s, parent.value))
     || (Absent(s[parent.value], name) && Held(More(refs, parent.value)) >= NINODE
         && HasFree(s)))
  }

  // Two free slots are enough for both.
  lemma SlotsSuffice(s: seq<Inode>, refs: seq<nat>, d: nat, name: string)
    requires |refs| == |s| && d < |s| && Held(refs) + 2 <= NINODE
    ensures !GetPanics(s, refs, d, name) && !UnlinkPanics(s, refs, Some(d), name)
    ensures CreatePanics(s, refs, Some(d), name) <==> name == ".." && Dangling(s, d)
  {
    HeldSet(refs, d, refs[d] + 1);
  }

  class Namespace {
    var inodes: seq<Inode>
    var refs: seq<nat>      // references held by open files, working directories and this call
    var valid: seq<bool>    // whether the copy in memory has been read from disk

    ghost predicate Sized()
      reads this
    {
      |refs| == |inodes| == |valid|
    }

    ghost predicate Good()
      reads this
    {
      Tree(inodes) && Counted(inodes) && RefsOk(inodes, refs, valid) && Held(refs) <= NINODE
    }

    // mkfs: one file in the root directory for each name.
    constructor Mkfs(n: nat, names: seq<string>)
      requires n >= |names| + 2
      requires forall i, j :: 0 <= i < j < |names| ==> names[i] != names[j]
      requires forall i :: 0 <= i < |names| ==> names[i] != "." && names[i] != ".."
      ensures Good() && |inodes| == n && Made(inodes, names, |names|)
      ensures refs == seq(n, i => 0)
    {
      RootOk(n);
      inodes := RootOnly(n);
      refs := seq(n, i => 0);
      valid := seq(n, i => false);
      HeldNone(seq(n, i => 0));
      new;
      var i := 0;
      while i < |names|
        invariant i <= |names| && |inodes| == n
        invariant Good() && Made(inodes, names, i) && refs == seq(n, i => 0)
      {
        AddNext(names, i);
        i := i + 1;
      }
    }

    method AddNext(names: seq<string>, i: nat)
      requires Good() && i < |names| && Made(inodes, names, i) && names[i] != "." && names[i] != ".."
      requires forall j :: 0 <= j < i ==> names[j] != names[i]
      modifies this`inodes
      ensures Good() && Made(inodes, names, i + 1) && |inodes| == old(|inodes|)
    {
      MadeAbsent(inodes, names, i, names[i]);
      MadeNext(inodes, names, i);
      AddFile(i + 2, names[i]);
    }

    // mkfs's iappend of one entry to the root directory.
    method AddFile(inum: nat, name: string)
      requires Good() && 2 <= inum < |inodes| && inodes[inum].typ == Free && Absent(inodes[ROOT], name) && name != "."
      modifies this`inodes
      ensures Good() && inodes == Creating(old(inodes), inum, File, ROOT, |old(inodes)[ROOT].ents|, name)
    {
      CreateTree(inodes, inum, File, ROOT, |inodes[ROOT].ents|, name);
      CreateCounts(inodes, inum, File, ROOT, |inodes[ROOT].ents|, name);
      inodes := inodes[inum := Inode(File, 1, [])];
      inodes := inodes[ROOT := inodes[ROOT].(ents := inodes[ROOT].ents + [Dirent(inum, name)])];
    }

    // One more reference. An inode that is not in memory takes a slot of the table, its copy not yet
    // read; without a free slot iget panics.
    method Iget(i: nat) returns (panicked: bool)
      requires Sized() && i < |inodes|
      modifies this`refs, this`valid
      ensures panicked <==> NoSlot(old(refs), i)
      ensures panicked ==> refs == old(refs) && valid == old(valid)
      ensures !panicked ==> refs == More(old(refs), i)
      ensures !panicked ==> valid == if old(refs[i]) == 0 then old(valid)[i := false] else old(valid)
      ensures old(Held(refs)) <= NINODE ==> Held(refs) <= NINODE
    {
      HeldSet(refs, i, refs[i] + 1);
      panicked := refs[i] == 0 && Held(refs) >= NINODE;
      if panicked {
        return;
      }
      if refs[i] == 0 {
        valid := valid[i := false];
      }
      refs := refs[i := refs[i] + 1];
    }

    // Reads the inode into memory if need be; it panics on one that is free.
    method Ilock(i: nat) returns (panicked: bool)
      requires Sized() && i < |inodes| && refs[i] >= 1
      modifies this`valid
      ensures panicked <==> !old(valid)[i] && inodes[i].typ == Free
      ensures valid == old(valid)[i := true]
    {
      panicked := false;
      if !valid[i] {
        valid := valid[i := true];
        panicked := inodes[i].typ == Free;
      }
    }

    method Iput(i: nat)
      requires Sized() && i < |inodes| && refs[i] >= 1
      modifies this
      ensures var gone := old(refs[i] == 1 && valid[i] && inodes[i].nlink == 0);
              && inodes == (if gone then old(inodes)[i := NOLINK] else old(inodes))
              && valid == (if gone then old(valid)[i := false] else old(valid))
      ensures refs == old(refs)[i := old(refs[i]) - 1]
      ensures Held(refs) <= old(Held(refs))
    {
      HeldSet(refs, i, refs[i] - 1);
      if refs[i] == 1 && valid[i] && inodes[i].nlink == 0 {
        inodes := inodes[i := Inode(Free, inodes[i].nlink, [])];
        valid := valid[i := false];
      }
      refs := refs[i := refs[i] - 1];
    }

    // A reference to an allocated inode, and its lock.
    method Hold(i: nat) returns (panicked: bool)
      requires Good() && i < |inodes| && inodes[i].typ != Free
      modifies this`refs, this`valid
      ensures Good() && (panicked <==> NoSlot(old(refs), i))
      ensures panicked ==> refs == old(refs) && valid == old(valid)
      ensures !panicked ==> refs == More(old(refs), i) && valid[i] && StaysValid(old(refs), old(valid), valid)
    {
      panicked := Iget(i);
      if !panicked {
        var free := Ilock(i);
        assert !free;
      }
    }

    // iunlockput of an inode that this call does not make the last use of.
    method Drop(i: nat)
      requires Sized() && i < |inodes| && refs[i] >= 1 && (inodes[i].nlink != 0 || refs[i] >= 2)
      modifies this
      ensures inodes == old(inodes) && refs == old(refs)[i := old(refs)[i] - 1] && valid == old(valid)
      ensures Held(refs) <= old(Held(refs))
    {
      Iput(i);
    }

    // The last close of an unlinked inode frees it.
    method Close(i: nat)
      requires Good() && i < |inodes| && refs[i] >= 1
      modifies this
      ensures Good() && refs == old(refs)[i := old(refs)[i] - 1]
      ensures inodes[i].typ == Free <==> old(refs)[i] == 1 && old(inodes)[i].nlink == 0
      ensures inodes == old(inodes)[i := inodes[i]] && (inodes[i].typ != Free ==> inodes == old(inodes))
    {
      if inodes[i].nlink == 0 {
        FreeOk(inodes, i);
      }
      Iput(i);
    }

    // dirlookup's loop.
    method FindEntry(dp: nat, name: string) returns (off: int)
      requires dp < |inodes|
      ensures off < 0 <==> Absent(inodes[dp], name)
      ensures off >= 0 ==> off < |inodes[dp].ents| && inodes[dp].ents[off].inum != 0 && inodes[dp].ents[off].name == name
      ensures off >= 0 ==> inodes[dp].ents[off].inum == Lookup(inodes[dp].ents, name)
    {
      off := 0;
      while off < |inodes[dp].ents|
        invariant 0 <= off <= |inodes[dp].ents|
        invariant forall k :: 0 <= k < off && inodes[dp].ents[k].inum != 0 ==> inodes[dp].ents[k].name != name
      {
        var de := inodes[dp].ents[off];
        if de.inum != 0 && de.name == name {
          LookupAt(inodes[dp].ents, name, off);
          return;
        }
        off := off + 1;
      }
      off := -1;
    }

    // The entry found, with a reference to its inode.
    method Dirlookup(dp: nat, name: string) returns (off: int, panicked: bool)
      requires Sized() && dp < |inodes| && forall j :: 0 <= j < |inodes[dp].ents| ==> inodes[dp].ents[j].inum < |inodes|
      modifies this`refs, this`valid
      ensures off < 0 <==> Absent(inodes[dp], name)
      ensures off >= 0 ==> off < |inodes[dp].ents| && inodes[dp].ents[off].inum != 0 && inodes[dp].ents[off].name == name
      ensures off >= 0 ==> inodes[dp].ents[off].inum == Lookup(inodes[dp].ents, name)
      ensures panicked <==> LookupPanics(inodes, old(refs), dp, name)
      ensures off < 0 || panicked ==> refs == old(refs) && valid == old(valid)
      ensures off >= 0 && !panicked ==>
                var i := inodes[dp].ents[off].inum;
                refs == More(old(refs), i) && valid == if old(refs)[i] == 0 then old(valid)[i := false] else old(valid)
      ensures old(Held(refs)) <= NINODE ==> Held(refs) <= NINODE
    {
      panicked := false;
      off := FindEntry(dp, name);
      if off >= 0 {
        panicked := Iget(inodes[dp].ents[off].inum);
      }
    }

    // full: no block is left if the directory has to grow.
    method Dirlink(dp: nat, name: string, inum: nat, full: bool) returns (ok: bool, panicked: bool, ghost k: nat)
      requires Sized() && dp < |inodes| && forall j :: 0 <= j < |inodes[dp].ents| ==> inodes[dp].ents[j].inum < |inodes|
      modifies this
      ensures panicked <==> LookupPanics(old(inodes), old(refs), dp, name)
      ensures refs == old(refs) && StaysValid(refs, old(valid), valid)
      ensures ok <==> Absent(old(inodes)[dp], name) && HasRoom(old(inodes)[dp], full)
      ensures !ok ==> inodes == old(inodes)
      ensures ok ==> FreeSlot(old(inodes)[dp], k) && inodes == Enter(old(inodes), dp, k, Dirent(inum, name)) && valid == old(valid)
      ensures ok ==> forall j :: 0 <= j < k ==> old(inodes)[dp].ents[j].inum != 0
    {
      k, ok := 0, false;
      var found;
      found, panicked := Dirlookup(dp, name);
      if panicked {
        return;
      }
      if found >= 0 {
        Iput(inodes[dp].ents[found].inum);
        assert refs == old(refs);
        return;
      }
      var off := FirstFree(dp);
      if off == |inodes[dp].ents| {
        if full {
          return;
        }
        inodes := inodes[dp := inodes[dp].(ents := inodes[dp].ents + [Dirent(inum, name)])];
      } else {
        inodes := inodes[dp := inodes[dp].(ents := inodes[dp].ents[off := Dirent(inum, name)])];
      }
      k := off;
      ok := true;
    }

    // dirlink's second loop.
    method FirstFree(dp: nat) returns (off: nat)
      requires dp < |inodes|
      ensures FreeSlot(inodes[dp], off) && forall j :: 0 <= j < off ==> inodes[dp].ents[j].inum != 0
    {
      off := 0;
      while off < |inodes[dp].ents| && inodes[dp].ents[off].inum != 0
        invariant 0 <= off <= |inodes[dp].ents|
        invariant forall j :: 0 <= j < off ==> inodes[dp].ents[j].inum != 0
      {
        off := off + 1;
      }
    }

    method IsDirEmpty(dp: nat) returns (empty: bool)
      requires dp < |inodes|
      ensures empty <==> Empty(inodes[dp])
    {
      var off := 2;
      while off < |inodes[dp].ents|
        invariant 2 <= off && (|inodes[dp].ents| >= 2 ==> off <= |inodes[dp].ents|)
        invariant forall k :: 2 <= k < off && k < |inodes[dp].ents| ==> inodes[dp].ents[k].inum == 0
      {
        if inodes[dp].ents[off].inum != 0 {
          return false;
        }
        off := off + 1;
      }
      return true;
    }

    method AddLinks(i: nat, delta: int)
      requires i < |inodes|
      modifies this`inodes
      ensures inodes == Relink(old(inodes), i, delta)
    {
      inodes := inodes[i := inodes[i].(nlink := Short(inodes[i].nlink + delta))];
    }

    // dirlink into the directory nameiparent found, and iunlockput of it.
    method LinkInto(dp: nat, name: string, inum: nat, full: bool) returns (ok: bool, panicked: bool, ghost k: nat)
      requires Sized() && dp < |inodes| && inodes[dp].typ == Dir && (inodes[dp].nlink > 0 || refs[dp] > 0)
      requires forall j :: 0 <= j < |inodes[dp].ents| ==> inodes[dp].ents[j].inum < |inodes|
      modifies this
      ensures panicked <==> GetPanics(old(inodes), old(refs), dp, name)
      ensures panicked ==> !ok && inodes == old(inodes)
      ensures !panicked ==> refs == old(refs) && StaysValid(refs, old(valid), valid)
      ensures !panicked ==> (ok <==> Absent(old(inodes)[dp], name) && HasRoom(old(inodes)[dp], full))
      ensures !ok ==> inodes == old(inodes)
      ensures ok ==> FreeSlot(old(inodes)[dp], k) && inodes == Enter(old(inodes), dp, k, Dirent(inum, name))
    {
      ok, k := false, 0;
      panicked := Iget(dp);
      if panicked {
        return;
      }
      var free := Ilock(dp);
      assert !free;
      ok, panicked, k := Dirlink(dp, name, inum, full);
      if !panicked {
        Drop(dp);
        assert refs == old(refs);
      }
    }

    // sys_link. Without a panic it fails or enters the file under one more name.
    method Link(from: Option<nat>, parent: Option<nat>, name: string, full: bool) returns (r: int, panicked: bool, ghost k: nat)
      requires Good()
      requires from.Some? ==> 1 <= from.value < |inodes|
      requires parent.Some? ==> parent.value < |inodes| && inodes[parent.value].typ == Dir
      modifies this
      ensures panicked <==> LinkPanics(old(inodes), old(refs), from, parent, name)
      ensures !panicked ==> refs == old(refs)
      ensures r == 0 <==> && !panicked && from.Some? && old(inodes)[from.value].typ != Dir
                          && parent.Some? && Absent(old(inodes)[parent.value], name) && HasRoom(old(inodes)[parent.value], full)
      ensures r != 0 && !panicked ==> inodes == old(inodes)
      ensures r == 0 ==> k <= |old(inodes)[parent.value].ents| && inodes == Linking(old(inodes), from.value, parent.value, k, name)
      ensures r == 0 ==> (Counted(inodes) <==> old(inodes)[parent.value].nlink > 0 && old(inodes)[from.value].nlink < MAXLINK)
      ensures !panicked && (r != 0 || (old(inodes)[parent.value].nlink > 0 && old(inodes)[from.value].nlink < MAXLINK)) ==> Good()
    {
      r, panicked, k := -1, false, 0;
      if from.None? {
        return;
      }
      var ip := from.value;
      panicked := GetLocked(ip);
      if panicked {
        return;
      }
      if inodes[ip].typ == Dir {
        Close(ip);
        assert refs == old(refs);
        return;
      }
      var ok;
      ok, panicked, k := LinkHeld(ip, parent, name, full);
      r := if ok then 0 else -1;
      assert !panicked ==> refs == old(refs);
      if ok {
        LinkedOk(old(inodes), old(refs), old(valid), valid, ip, parent.value, k, name);
      }
    }

    // namei's reference to the last inode of a path, and its lock.
    method GetLocked(i: nat) returns (panicked: bool)
      requires Good() && i < |inodes|
      modifies this`refs, this`valid
      ensures panicked <==> NoSlot(old(refs), i) || inodes[i].typ == Free
      ensures !panicked ==> Good() && refs == More(old(refs), i) && StaysValid(old(refs), old(valid), valid)
    {
      panicked := Iget(i);
      if !panicked {
        panicked := Ilock(i);
      }
    }

    // The rest of sys_link, once ip is locked and known not to be a directory.
    method LinkHeld(ip: nat, parent: Option<nat>, name: string, full: bool) returns (ok: bool, panicked: bool, ghost k: nat)
      requires Good() && 1 <= ip < |inodes| && inodes[ip].typ != Free && inodes[ip].typ != Dir
      requires refs[ip] >= 1 && (inodes[ip].nlink > 0 || refs[ip] >= 2)
      requires parent.Some? ==> parent.value < |inodes| && inodes[parent.value].typ == Dir
      modifies this
      ensures panicked <==> parent.Some? && GetPanics(old(inodes), old(refs), parent.value, name)
      ensures !panicked ==> refs == old(refs)[ip := old(refs)[ip] - 1] && StaysValid(old(refs), old(valid), valid)
      ensures !panicked ==> Held(refs) <= NINODE
      ensures ok <==> !panicked && parent.Some? && Absent(old(inodes)[parent.value], name) && HasRoom(old(inodes)[parent.value], full)
      ensures ok ==> FreeSlot(old(inodes)[parent.value], k) && inodes == Linking(old(inodes), ip, parent.value, k, name)
      ensures !ok && !panicked ==> inodes == old(inodes)
    {
      ok, panicked, k := LinkOrUndo(ip, parent, name, full);
      if !panicked {
        Drop(ip);
      }
    }

    // The count goes up first, and back down if the entry is not made.
    method LinkOrUndo(ip: nat, parent: Option<nat>, name: string, full: bool) returns (ok: bool, panicked: bool, ghost k: nat)
      requires Good() && 1 <= ip < |inodes| && inodes[ip].typ != Dir
      requires parent.Some? ==> parent.value < |inodes| && inodes[parent.value].typ == Dir
      modifies this
      ensures panicked <==> parent.Some? && GetPanics(old(inodes), old(refs), parent.value, name)
      ensures !panicked ==> refs == old(refs) && StaysValid(refs, old(valid), valid) && |inodes| == |old(inodes)|
      ensures ok <==> !panicked && parent.Some? && Absent(old(inodes)[parent.value], name) && HasRoom(old(inodes)[parent.value], full)
      ensures ok ==> FreeSlot(old(inodes)[parent.value], k) && inodes == Linking(old(inodes), ip, parent.value, k, name)
      ensures ok ==> inodes[ip].nlink != 0
      ensures !ok && !panicked ==> inodes == old(inodes)
    {
      k, panicked := 0, false;
      AddLinks(ip, 1);
      ok := false;
      if parent.Some? {
        EntriesInRange(old(inodes), parent.value);
        ok, panicked, k := LinkInto(parent.value, name, ip, full);
      }
      if !ok && !panicked {
        AddLinks(ip, -1);
        assert inodes == old(inodes);
      }
    }

    // unlink's part on the entry it found: the panic on a count below one cannot happen.
    method Remove(dp: nat, off: nat)
      requires Tree(inodes) && Counted(inodes) && Sized() && Held(refs) <= NINODE && CanRemove(inodes, dp, off) && refs[dp] >= 1
      requires var ip := inodes[dp].ents[off].inum; refs[ip] >= 1 && valid[ip]
      modifies this
      ensures refs == old(refs)[dp := old(refs)[dp] - 1][old(inodes)[dp].ents[off].inum := old(refs)[old(inodes)[dp].ents[off].inum] - 1]
      ensures inodes == Unlinked(old(inodes), refs, dp, off) && StaysValid(refs, old(valid), valid) && Held(refs) <= NINODE
    {
      var ip := inodes[dp].ents[off].inum;
      RemovedLinks(inodes, dp, off);
      assert inodes[ip].nlink >= 1;
      Erase(dp, off, ip, inodes[ip].typ == Dir);
    }

    // The writes of sys_unlink, with dp and ip locked.
    method Erase(dp: nat, off: nat, ip: nat, isDir: bool)
      requires Sized() && dp < |inodes| && ip < |inodes| && dp != ip && off < |inodes[dp].ents|
      requires inodes[dp].ents[off].inum == ip && (isDir <==> inodes[ip].typ == Dir)
      requires (if isDir then 2 else 1) <= inodes[dp].nlink <= MAXLINK && 1 <= inodes[ip].nlink <= MAXLINK
      requires refs[dp] >= 1 && refs[ip] >= 1 && valid[ip]
      modifies this
      ensures refs == old(refs)[dp := old(refs)[dp] - 1][ip := old(refs)[ip] - 1] && Held(refs) <= old(Held(refs))
      ensures inodes == Unlinked(old(inodes), refs, dp, off)
      ensures StaysValid(refs, old(valid), valid)
    {
      inodes := inodes[dp := inodes[dp].(ents := inodes[dp].ents[off := Dirent(0, "")])];
      if isDir {
        AddLinks(dp, -1);
      }
      Drop(dp);
      AddLinks(ip, -1);
      Iput(ip);
    }

    // sys_unlink.
    method Unlink(parent: Option<nat>, name: string) returns (r: int, panicked: bool, ghost off: nat)
      requires Good()
      requires parent.Some? ==> parent.value < |inodes| && inodes[parent.value].typ == Dir
      modifies this
      ensures panicked <==> UnlinkPanics(old(inodes), old(refs), parent, name)
      ensures panicked ==> r != 0 && inodes == old(inodes)
      ensures !panicked ==> Good() && refs == old(refs)
      ensures r == 0 ==> parent.Some? && CanRemove(old(inodes), parent.value, off) && old(inodes)[parent.value].ents[off].name == name
                         && inodes == Unlinked(old(inodes), old(refs), parent.value, off)
      ensures r != 0 ==> inodes == old(inodes)
      ensures r != 0 && !panicked ==>
                forall k: nat :: parent.Some? && CanRemove(old(inodes), parent.value, k) ==> old(inodes)[parent.value].ents[k].name != name
    {
      r, panicked, off := -1, false, 0;
      if parent.None? {
        return;
      }
      var dp := parent.value;
      panicked := Hold(dp);
      if panicked {
        return;
      }
      if name == "." || name == ".." {
        NeverRemovable(inodes, dp, name);
        Close(dp);
        assert refs == old(refs);
        return;
      }
      var found;
      found, panicked := UnlinkIn(dp, name, old(refs), old(valid));
      if !panicked && found >= 0 {
        r, off := 0, found;
      }
    }

    // The rest of sys_unlink, with dp held beyond refs0.
    method UnlinkIn(dp: nat, name: string, ghost refs0: seq<nat>, ghost valid0: seq<bool>) returns (found: int, panicked: bool)
      requires Good() && dp < |inodes| && inodes[dp].typ == Dir && name != "." && name != ".."
      requires RefsOk(inodes, refs0, valid0) && refs == More(refs0, dp) && StaysValid(refs0, valid0, valid) && valid[dp]
      modifies this
      ensures panicked <==> LookupPanics(old(inodes), old(refs), dp, name)
      ensures panicked ==> inodes == old(inodes)
      ensures !panicked ==> Good() && refs == refs0
      ensures !panicked && found >= 0 ==> CanRemove(old(inodes), dp, found) && old(inodes)[dp].ents[found].name == name
                                          && inodes == Unlinked(old(inodes), refs0, dp, found)
      ensures !panicked && found < 0 ==> inodes == old(inodes)
      ensures !panicked && found < 0 ==> forall k: nat :: CanRemove(old(inodes), dp, k) ==> old(inodes)[dp].ents[k].name != name
    {
      EntriesInRange(inodes, dp);
      found, panicked := Dirlookup(dp, name);
      if panicked {
        return;
      }
      if found < 0 {
        Close(dp);
        assert refs == refs0;
        return;
      }
      found := UnlinkFound(dp, found, refs0, valid0);
    }

    // iunlockput of the inode found and of the directory.
    method PutBack(dp: nat, ip: nat, ghost refs0: seq<nat>, ghost valid0: seq<bool>)
      requires Sized() && Held(refs) <= NINODE && RefsOk(inodes, refs0, valid0) && StaysValid(refs0, valid0, valid)
      requires dp < |inodes| && ip < |inodes| && refs == More(More(refs0, dp), ip)
      requires inodes[ip].nlink != 0 && inodes[dp].typ != Free
      modifies this
      ensures inodes == old(inodes) && RefsOk(inodes, refs, valid) && refs == refs0 && Held(refs) <= NINODE
    {
      Drop(ip);
      Drop(dp);
      assert refs == refs0;
    }

    // The entry is there, its inode referenced by dirlookup.
    method UnlinkFound(dp: nat, off: nat, ghost refs0: seq<nat>, ghost valid0: seq<bool>) returns (found: int)
      requires Tree(inodes) && Counted(inodes) && RefsOk(inodes, refs0, valid0) && Sized() && Held(refs) <= NINODE
      requires dp < |inodes| && inodes[dp].typ == Dir && off < |inodes[dp].ents| && inodes[dp].ents[off].inum != 0
      requires inodes[dp].ents[off].name != "." && inodes[dp].ents[off].name != ".."
      requires var i := inodes[dp].ents[off].inum; i < |inodes| && refs == More(More(refs0, dp), i)
      requires StaysValid(refs0, valid0, valid)
      modifies this
      ensures Good() && refs == refs0
      ensures found >= 0 ==> found == off && CanRemove(old(inodes), dp, off) && inodes == Unlinked(old(inodes), refs0, dp, off)
      ensures found < 0 ==> inodes == old(inodes)
      ensures found < 0 ==> forall k: nat :: CanRemove(old(inodes), dp, k) ==> old(inodes)[dp].ents[k].name != old(inodes)[dp].ents[off].name
    {
      assert DirOk(inodes, dp) && EntOk(inodes, dp, off) && off >= 2;
      NamedIsLinked(inodes, dp, off);
      var ip := inodes[dp].ents[off].inum;
      var free := Ilock(ip);
      assert !free;
      var empty := true;
      if inodes[ip].typ == Dir {
        empty := IsDirEmpty(ip);
      }
      if empty {
        RemoveFound(dp, off, refs0, valid0);
        return off;
      }
      OthersDiffer(inodes, dp, off);
      PutBack(dp, ip, refs0, valid0);
      return -1;
    }

    // The entry goes, and both references beyond refs0.
    method RemoveFound(dp: nat, off: nat, ghost refs0: seq<nat>, ghost valid0: seq<bool>)
      requires Tree(inodes) && Counted(inodes) && RefsOk(inodes, refs0, valid0) && Sized() && Held(refs) <= NINODE
      requires CanRemove(inodes, dp, off) && StaysValid(refs0, valid0, valid)
      requires var i := inodes[dp].ents[off].inum; refs == More(More(refs0, dp), i) && valid[i]
      modifies this
      ensures Good() && refs == refs0 && inodes == Unlinked(old(inodes), refs0, dp, off)
    {
      Remove(dp, off);
      assert refs == refs0;
      UnlinkedOk(old(inodes), refs, valid0, valid, dp, off);
    }

    // The first free inode, marked allocated and referenced; 0 if there is none.
    method Ialloc(typ: Type) returns (i: nat, panicked: bool)
      requires Sized() && |inodes| >= 1 && forall j :: 0 <= j < |inodes| && inodes[j].typ == Free ==> refs[j] == 0
      modifies this
      ensures i == 0 <==> !HasFree(old(inodes))
      ensures panicked <==> i != 0 && old(Held(refs)) >= NINODE
      ensures i == 0 ==> inodes == old(inodes) && refs == old(refs) && valid == old(valid)
      ensures i != 0 ==> i < |old(inodes)| && old(inodes)[i].typ == Free && inodes == old(inodes)[i := Inode(typ, 0, [])]
      ensures i != 0 ==> forall j :: 1 <= j < i ==> old(inodes)[j].typ != Free
      ensures i != 0 && !panicked ==> refs == old(refs)[i := 1] && StaysValid(old(refs), old(valid), valid)
      ensures Sized() && |inodes| == old(|inodes|) && (old(Held(refs)) <= NINODE ==> Held(refs) <= NINODE)
    {
      i, panicked := 1, false;
      while i < |inodes|
        invariant 1 <= i <= |inodes|
        invariant forall j :: 1 <= j < i ==> inodes[j].typ != Free
        invariant inodes == old(inodes) && refs == old(refs) && valid == old(valid)
      {
        if inodes[i].typ == Free {
          inodes := inodes[i := Inode(typ, 0, [])];
          panicked := Iget(i);
          return;
        }
        i := i + 1;
      }
      i := 0;
    }

    // The entries of a new inode: "." and ".." in a directory, none elsewhere.
    method Fill(ip: nat, typ: Type, dp: nat, full0: bool, full1: bool) returns (ok: bool)
      requires Sized() && 0 < ip < |inodes| && inodes[ip] == Inode(typ, 1, [])
      modifies this
      ensures refs == old(refs) && StaysValid(refs, old(valid), valid)
      ensures ok <==> typ != Dir || (!full0 && !full1)
      ensures ok ==> inodes == old(inodes)[ip := NewInode(ip, typ, dp)]
      ensures !ok ==> |inodes| == old(|inodes|) && inodes[ip].nlink == 1 && inodes == old(inodes)[ip := inodes[ip]]
    {
      ok := true;
      if typ == Dir {
        ok := AppendEntry(ip, ".", ip, full0);
        if ok {
          ok := AppendEntry(ip, "..", dp, full1);
        }
      }
      assert ok ==> inodes[ip].ents == NewInode(ip, typ, dp).ents;
    }

    // dirlink of a new name into a directory without unused entries.
    method AppendEntry(ip: nat, name: string, inum: nat, full: bool) returns (ok: bool)
      requires Sized() && ip < |inodes| && Absent(inodes[ip], name)
      requires forall j :: 0 <= j < |inodes[ip].ents| ==> 0 < inodes[ip].ents[j].inum < |inodes|
      modifies this
      ensures refs == old(refs) && StaysValid(refs, old(valid), valid) && (ok <==> !full)
      ensures inodes == if ok then old(inodes)[ip := old(inodes)[ip].(ents := old(inodes)[ip].ents + [Dirent(inum, name)])] else old(inodes)
    {
      ghost var k;
      var panicked;
      ok, panicked, k := Dirlink(ip, name, inum, full);
      assert !panicked;
    }

    // create's failure: the new inode goes back.
    method Undo(ip: nat, ghost s: seq<Inode>)
      requires Sized() && |inodes| == |s| && ip < |inodes| && refs[ip] == 1 && valid[ip] && s[ip] == NOLINK
      requires inodes == s[ip := inodes[ip]]
      modifies this
      ensures inodes == s && refs == old(refs)[ip := 0] && valid == old(valid)[ip := false] && Held(refs) <= old(Held(refs))
    {
      inodes := inodes[ip := inodes[ip].(nlink := 0)];
      Iput(ip);
    }

    // A new inode with one link, locked; 0 is failure.
    method NewLocked(typ: Type) returns (ip: nat, panicked: bool)
      requires Good() && typ != Free
      modifies this
      ensures ip == 0 <==> !HasFree(old(inodes))
      ensures panicked <==> ip != 0 && old(Held(refs)) >= NINODE
      ensures ip == 0 ==> inodes == old(inodes) && refs == old(refs) && valid == old(valid)
      ensures ip != 0 ==> ip < |old(inodes)| && old(inodes)[ip].typ == Free
      ensures panicked ==> inodes == old(inodes)[ip := Inode(typ, 0, [])]
      ensures ip != 0 && !panicked ==> inodes == old(inodes)[ip := Inode(typ, 1, [])]
      ensures ip != 0 && !panicked ==> refs == old(refs)[ip := 1] && StaysValid(old(refs), old(valid), valid) && valid[ip]
      ensures Sized() && Held(refs) <= NINODE
    {
      ip, panicked := Ialloc(typ);
      if ip == 0 || panicked {
        return;
      }
      var free := Ilock(ip);
      assert !free;
      AddLinks(ip, 1);
    }

    // create where the name is not there yet; 0 is failure.
    method CreateNew(dp: nat, name: string, typ: Type, full0: bool, full1: bool, full2: bool)
      returns (ip: nat, panicked: bool, ghost k: nat)
      requires Good() && typ != Free && dp < |inodes| && inodes[dp].typ == Dir && Absent(inodes[dp], name)
      modifies this
      ensures panicked <==> old(Held(refs)) >= NINODE && HasFree(old(inodes))
      ensures panicked ==> ip == 0 && HalfMade(old(inodes), inodes, typ)
      ensures !panicked ==> (ip == 0 <==> !HasFree(old(inodes)) || (typ == Dir && (full0 || full1)) || !HasRoom(old(inodes)[dp], full2))
      ensures !panicked ==> StaysValid(old(refs), old(valid), valid) && Held(refs) <= NINODE
      ensures ip == 0 && !panicked ==> inodes == old(inodes) && refs == old(refs)
      ensures ip != 0 ==> ip < |old(inodes)| && old(inodes)[ip].typ == Free && FreeSlot(old(inodes)[dp], k)
                          && inodes == Creating(old(inodes), ip, typ, dp, k, name) && refs == old(refs)[ip := 1]
    {
      k := 0;
      ip, panicked := NewLocked(typ);
      if panicked {
        return 0, true, 0;
      }
      if ip == 0 {
        return;
      }
      EntriesInRange(old(inodes), dp);
      var ok;
      ok, k := Enlist(ip, dp, name, typ, full0, full1, full2, old(inodes));
      if !ok {
        Undo(ip, old(inodes));
        assert refs == old(refs);
        ip := 0;
      }
    }

    // The entries of and for the new inode.
    method Enlist(ip: nat, dp: nat, name: string, typ: Type, full0: bool, full1: bool, full2: bool, ghost s: seq<Inode>)
      returns (ok: bool, ghost k: nat)
      requires Sized() && 0 < ip < |s| && dp < |s| && ip != dp && inodes == s[ip := Inode(typ, 1, [])]
      requires forall j :: 0 <= j < |s[dp].ents| ==> s[dp].ents[j].inum < |s|
      requires Absent(s[dp], name)
      modifies this
      ensures refs == old(refs) && StaysValid(refs, old(valid), valid)
      ensures ok <==> (typ == Dir ==> !full0 && !full1) && HasRoom(s[dp], full2)
      ensures ok ==> FreeSlot(s[dp], k) && inodes == Creating(s, ip, typ, dp, k, name)
      ensures !ok ==> |inodes| == |s| && inodes == s[ip := inodes[ip]]
    {
      k := 0;
      ok := Fill(ip, typ, dp, full0, full1);
      if ok {
        var panicked;
        ok, panicked, k := Dirlink(dp, name, ip, full2);
        assert !panicked;
        if ok && typ == Dir {
          AddLinks(dp, 1);
        }
      }
    }

    // iunlockput of dp, which leaves the references refs1.
    method PutParent(dp: nat, ghost refs1: seq<nat>)
      requires Sized() && dp < |inodes| && |refs1| == |refs| && refs == More(refs1, dp) && (inodes[dp].nlink != 0 || refs1[dp] > 0)
      modifies this
      ensures inodes == old(inodes) && valid == old(valid) && refs == refs1 && Held(refs) <= old(Held(refs))
    {
      Drop(dp);
      assert refs == refs1;
    }

    // The same, then iunlockput of dp, which was held beyond refs0.
    method CreateAndDrop(dp: nat, name: string, typ: Type, full0: bool, full1: bool, full2: bool,
                         ghost refs0: seq<nat>, ghost valid0: seq<bool>) returns (ip: nat, panicked: bool, ghost k: nat)
      requires Good() && typ != Free && dp < |inodes| && inodes[dp].typ == Dir && Absent(inodes[dp], name)
      requires RefsOk(inodes, refs0, valid0) && refs == More(refs0, dp) && StaysValid(refs0, valid0, valid)
      modifies this
      ensures panicked <==> old(Held(refs)) >= NINODE && HasFree(old(inodes))
      ensures panicked ==> ip == 0 && HalfMade(old(inodes), inodes, typ)
      ensures !panicked ==> (ip == 0 <==> !HasFree(old(inodes)) || (typ == Dir && (full0 || full1)) || !HasRoom(old(inodes)[dp], full2))
      ensures ip == 0 && !panicked ==> inodes == old(inodes) && refs == refs0
      ensures ip != 0 ==> ip < |old(inodes)| && old(inodes)[ip].typ == Free && FreeSlot(old(inodes)[dp], k)
                          && inodes == Creating(old(inodes), ip, typ, dp, k, name) && refs == refs0[ip := 1]
      ensures ip != 0 ==> (Counted(inodes) <==> old(inodes)[dp].nlink > 0 && CountFits(old(inodes)[dp], typ))
      ensures !panicked && (ip == 0 || (old(inodes)[dp].nlink > 0 && CountFits(old(inodes)[dp], typ))) ==> Good()
    {
      ip, panicked, k := CreateNew(dp, name, typ, full0, full1, full2);
      if panicked {
        return;
      }
      if ip != 0 {
        ParentStays(old(inodes), ip, typ, dp, k, name);
        CreatedOk(old(inodes), refs0, valid0, valid, ip, typ, dp, k, name);
      }
      PutParent(dp, if ip != 0 then refs0[ip := 1] else refs0);
    }

    // create where dirlookup has found i: dp is put back before i is locked.
    method CreateFound(dp: nat, i: nat, typ: Type, ghost refs0: seq<nat>, ghost valid0: seq<bool>) returns (ip: nat, panicked: bool)
      requires Tree(inodes) && Counted(inodes) && RefsOk(inodes, refs0, valid0) && Sized() && Held(refs) <= NINODE
      requires dp < |inodes| && i < |inodes| && inodes[dp].typ == Dir && refs == More(More(refs0, dp), i)
      requires StaysValid(refs0, valid0, valid) && (inodes[i].typ == Free ==> !valid[i])
      modifies this
      ensures inodes == old(inodes)
      ensures panicked <==> inodes[i].typ == Free
      ensures !panicked ==> Good()
      ensures panicked ==> ip == 0
      ensures !panicked ==> if Opens(typ, inodes[i].typ) then ip == i && refs == More(refs0, i) else ip == 0 && refs == refs0
    {
      ip := 0;
      assert refs == More(More(refs0, i), dp);
      PutParent(dp, More(refs0, i));
      panicked := Ilock(i);
      if panicked {
        return;
      }
      if Opens(typ, inodes[i].typ) {
        ip := i;
      } else {
        PutParent(i, refs0);
      }
    }

    // dirlookup of the name in dp, held beyond refs0, and what follows if it is there.
    method OpenFound(dp: nat, name: string, typ: Type, ghost refs0: seq<nat>, ghost valid0: seq<bool>)
      returns (absent: bool, ip: nat, panicked: bool)
      requires Good() && dp < |inodes| && inodes[dp].typ == Dir
      requires RefsOk(inodes, refs0, valid0) && refs == More(refs0, dp) && StaysValid(refs0, valid0, valid)
      modifies this
      ensures inodes == old(inodes) && (absent <==> Absent(inodes[dp], name))
      ensures panicked <==> LookupPanics(inodes, old(refs), dp, name) || (name == ".." && Dangling(inodes, dp))
      ensures panicked || absent ==> ip == 0
      ensures absent ==> !panicked && refs == old(refs) && valid == old(valid)
      ensures !absent && !panicked ==>
                var i := Lookup(inodes[dp].ents, name);
                Good() && i < |inodes| && if Opens(typ, inodes[i].typ) then ip == i && refs == More(refs0, i) else ip == 0 && refs == refs0
    {
      ip := 0;
      EntriesInRange(inodes, dp);
      var off;
      off, panicked := Dirlookup(dp, name);
      absent := off < 0;
      if absent {
        assert DirOk(inodes, dp);
      } else if !panicked {
        DanglesIff(inodes, dp, off);
        ip, panicked := CreateFound(dp, inodes[dp].ents[off].inum, typ, refs0, valid0);
      }
    }

    // create.
    method Create(parent: Option<nat>, name: string, typ: Type, full0: bool, full1: bool, full2: bool)
      returns (ip: nat, made: bool, panicked: bool, ghost k: nat)
      requires Good() && typ != Free
      requires parent.Some? ==> parent.value < |inodes| && inodes[parent.value].typ == Dir
      modifies this
      ensures panicked <==> CreatePanics(old(inodes), old(refs), parent, name)
      ensures panicked ==> ip == 0 && !made && (inodes == old(inodes) || HalfMade(old(inodes), inodes, typ))
      ensures ip == 0 && !panicked ==> !made && inodes == old(inodes) && refs == old(refs)
      ensures ip != 0 && !made ==> parent.Some? && ip < |inodes| && inodes == old(inodes) && refs == More(old(refs), ip)
      ensures parent.Some? && !Absent(old(inodes)[parent.value], name) && !panicked ==>
                var i := Lookup(old(inodes)[parent.value].ents, name);
                !made && i < |inodes| && ip == if Opens(typ, inodes[i].typ) then i else 0
      ensures made ==> && parent.Some? && 0 < ip < |old(inodes)| && old(inodes)[ip].typ == Free
                       && Absent(old(inodes)[parent.value], name) && FreeSlot(old(inodes)[parent.value], k)
                       && inodes == Creating(old(inodes), ip, typ, parent.value, k, name) && refs == old(refs)[ip := 1]
      ensures parent.Some? && Absent(old(inodes)[parent.value], name) && !panicked ==>
                (made <==> && HasFree(old(inodes)) && (typ == Dir ==> !full0 && !full1) && HasRoom(old(inodes)[parent.value], full2))
      ensures made ==> (Counted(inodes) <==> old(inodes)[parent.value].nlink > 0 && CountFits(old(inodes)[parent.value], typ))
      ensures !panicked && (made ==> old(inodes)[parent.value].nlink > 0 && CountFits(old(inodes)[parent.value], typ)) ==> Good()
    {
      ip, made, panicked, k := 0, false, false, 0;
      if parent.None? {
        return;
      }
      var dp := parent.value;
      panicked := Hold(dp);
      if panicked {
        return;
      }
      var absent;
      absent, ip, panicked := OpenFound(dp, name, typ, old(refs), old(valid));
      if absent {
        ip, panicked, k := CreateAndDrop(dp, name, typ, full0, full1, full2, old(refs), old(valid));
        made := ip != 0;
      }
    }

    // open of an inode that nobody has, or chdir into it, with a slot in memory left.
    method Open(i: nat)
      requires Good() && i < |inodes| && inodes[i].typ != Free && refs[i] == 0 && Held(refs) < NINODE
      modifies this`refs, this`valid
      ensures Good() && refs == old(refs)[i := 1] && Held(refs) == old(Held(refs)) + 1
    {
      HeldSet(refs, i, 1);
      var panicked := Hold(i);
    }

    // sys_mkdir of a name that is not there, with an inode and slots in memory left.
    method Mkdir(dp: nat, name: string) returns (d: nat, ghost k: nat)
      requires Good() && dp < |inodes| && Linked(inodes[dp]) && inodes[dp].nlink < MAXLINK && Absent(inodes[dp], name)
      requires Held(refs) + 2 <= NINODE && HasFree(inodes)
      modifies this
      ensures Good() && refs == old(refs) && |inodes| == |old(inodes)|
      ensures 0 < d < |inodes| && old(inodes)[d].typ == Free && inodes[d] == NewInode(d, Dir, dp)
      ensures inodes[dp].typ == Dir && 2 <= k < |inodes[dp].ents| && inodes[dp].ents[k] == Dirent(d, name)
      ensures inodes[dp].nlink == old(inodes)[dp].nlink + 1
      ensures k <= |old(inodes)[dp].ents| && |inodes[dp].ents| == if k < |old(inodes)[dp].ents| then |old(inodes)[dp].ents| else k + 1
      ensures forall j :: 0 <= j < |old(inodes)[dp].ents| && j != k ==> inodes[dp].ents[j] == old(inodes)[dp].ents[j]
      ensures forall j :: 0 <= j < |inodes| && j != d && j != dp ==> inodes[j] == old(inodes)[j]
    {
      assert DirOk(inodes, dp);
      SlotsSuffice(inodes, refs, dp, name);
      var made, panicked;
      d, made, panicked, k := Create(Some(dp), name, Dir, false, false, false);
      EnterAt(old(inodes)[d := NewInode(d, Dir, dp)], dp, k, Dirent(d, name), k);
      Close(d);
      assert refs == old(refs);
    }

    // sys_unlink of an empty directory, with slots in memory left.
    method Rmdir(dp: nat, name: string, ghost k: nat)
      requires Good() && CanRemove(inodes, dp, k) && inodes[dp].ents[k].name == name && Held(refs) + 2 <= NINODE
      requires inodes[inodes[dp].ents[k].inum].typ == Dir
      modifies this
      ensures Good() && refs == old(refs) && |inodes| == |old(inodes)|
      ensures var i := old(inodes)[dp].ents[k].inum;
              && i != dp
              && inodes[i] == (if refs[i] == 0 then NOLINK else old(inodes)[i].(nlink := 0))
              && inodes[dp] == old(inodes)[dp].(ents := old(inodes)[dp].ents[k := Dirent(0, "")], nlink := old(inodes)[dp].nlink - 1)
              && forall j :: 0 <= j < |inodes| && j != i && j != dp ==> inodes[j] == old(inodes)[j]
    {
      RemovedLinks(inodes, dp, k);
      SlotsSuffice(inodes, refs, dp, name);
      ghost var off;
      var r, panicked;
      r, panicked, off := Unlink(Some(dp), name);
      assert TwoOk(old(inodes), dp, k, off) && TwoOk(old(inodes), dp, off, k);
    }
  }

  // mkfs and mkdir of a directory in the root.
  method WithDirectory(n: nat, name: string) returns (ns: Namespace, a: nat, ghost k: nat)
    requires n >= 4 && name != "." && name != ".."
    ensures fresh(ns) && ns.Good() && |ns.inodes| == n && 2 <= a < n && ns.inodes[a] == NewInode(a, Dir, ROOT)
    ensures ns.inodes[ROOT].typ == Dir && 2 <= k < |ns.inodes[ROOT].ents| && ns.inodes[ROOT].ents[k] == Dirent(a, name)
    ensures ns.refs == seq(n, i => 0) && Held(ns.refs) == 0
    ensures HasFree(ns.inodes)
  {
    ns := new Namespace.Mkfs(n, []);
    HeldNone(ns.refs);
    assert ns.inodes[3].typ == Free;
    a, k := ns.Mkdir(ROOT, name);
    assert ns.inodes[if a == 2 then 3 else 2].typ == Free;
  }

  // mkfs, mkdir, chdir into the new directory and rmdir of it.
  method InRemoved(n: nat) returns (ns: Namespace, d: nat)
    requires n >= 4
    ensures fresh(ns) && ns.Good() && |ns.inodes| == n && 2 <= d < n && HasFree(ns.inodes)
    ensures ns.inodes[d] == NewInode(d, Dir, ROOT).(nlink := 0) && Held(ns.refs) == 1
  {
    ghost var k;
    ns, d, k := WithDirectory(n, "d");
    ghost var i :| 1 <= i < n && ns.inodes[i].typ == Free;
    ns.Open(d);
    ns.Rmdir(ROOT, "d", k);
    assert ns.inodes[i].typ == Free;
  }

  /** Link counts go wrong in a state that calls reach: mkfs, mkdir, chdir into it, rmdir of it, and
      the creation of a file there. */
  method CreateInRemovedDirectory(n: nat) returns (ns: Namespace)
    requires n >= 4
    ensures !Counted(ns.inodes)
  {
    ghost var k;
    var d, ip, made, panicked;
    ns, d := InRemoved(n);
    SlotsSuffice(ns.inodes, ns.refs, d, "a");
    ip, made, panicked, k := ns.Create(Some(d), "a", File, false, false, false);
  }

  // mkdir of a directory and one in it.
  method WithInner(n: nat) returns (ns: Namespace, a: nat, b: nat, ghost k: nat, ghost l: nat)
    requires n >= 4
    ensures fresh(ns) && ns.Good() && |ns.inodes| == n && 2 <= a < n && 2 <= b < n && a != b
    ensures ns.inodes[b] == NewInode(b, Dir, a) && ns.refs[a] == ns.refs[b] == Held(ns.refs) == 0
    ensures ns.inodes[a].typ == Dir && |ns.inodes[a].ents| == 3 && 2 == l && ns.inodes[a].ents[l] == Dirent(b, "b")
    ensures 2 <= k < |ns.inodes[ROOT].ents| && ns.inodes[ROOT].ents[k] == Dirent(a, "a")
  {
    ns, a, k := WithDirectory(n, "a");
    b, l := ns.Mkdir(a, "b");
  }

  // chdir into the inner one and rmdir of it.
  method InRemovedInner(n: nat) returns (ns: Namespace, a: nat, b: nat, ghost k: nat)
    requires n >= 4
    ensures fresh(ns) && ns.Good() && |ns.inodes| == n && 2 <= a < n && 2 <= b < n && a != b
    ensures ns.inodes[b] == NewInode(b, Dir, a).(nlink := 0) && ns.refs[b] == 1 && Held(ns.refs) == 1
    ensures ns.inodes[a].typ == Dir && Empty(ns.inodes[a]) && ns.refs[a] == 0
    ensures 2 <= k < |ns.inodes[ROOT].ents| && ns.inodes[ROOT].ents[k] == Dirent(a, "a")
  {
    ghost var l;
    ns, a, b, k, l := WithInner(n);
    ns.Open(b);
    ns.Rmdir(a, "b", l);
  }

  // Then rmdir of the outer one: ".." of the working directory is gone.
  method InDangling(n: nat) returns (ns: Namespace, a: nat, b: nat)
    requires n >= 4
    ensures fresh(ns) && ns.Good() && |ns.inodes| == n && 2 <= a < n && 2 <= b < n
    ensures ns.inodes[b] == NewInode(b, Dir, a).(nlink := 0) && ns.inodes[a].typ == Free && Held(ns.refs) == 1
  {
    ghost var k;
    ns, a, b, k := InRemovedInner(n);
    assert Linked(ns.inodes[ROOT]);
    ns.Rmdir(ROOT, "a", k);
  }

  // ilock's panic is reached by these calls and open("..", O_CREATE),
  method CreateDotDotInRemovedDirectory(n: nat) returns (panicked: bool)
    requires n >= 4
    ensures panicked
  {
    ghost var k;
    var ns, a, b, ip, made;
    ns, a, b := InDangling(n);
    ip, made, panicked, k := ns.Create(Some(b), "..", File, false, false, false);
  }

  // and by these calls and link("..", name), whatever the name.
  method LinkDotDotInRemovedDirectory(n: nat, name: string) returns (panicked: bool)
    requires n >= 4
    ensures panicked
  {
    ghost var k;
    var ns, a, b, r;
    ns, a, b := InDangling(n);
    assert Linked(ns.inodes[ROOT]);
    r, panicked, k := ns.Link(Some(ns.inodes[b].ents[1].inum), Some(ROOT), name, false);
  }

  // mkfs of at least NINODE - 1 files, and the opening of the root directory and of the first NINODE - 1.
  method FullTable(n: nat, names: seq<string>) returns (ns: Namespace)
    requires n >= |names| + 2 && |names| >= NINODE - 1
    requires forall i, j :: 0 <= i < j < |names| ==> names[i] != names[j]
    requires forall i :: 0 <= i < |names| ==> names[i] != "." && names[i] != ".."
    ensures fresh(ns) && ns.Good() && |ns.inodes| == n && Made(ns.inodes, names, |names|)
    ensures Held(ns.refs) == NINODE && ns.refs[ROOT] > 0
  {
    ns := new Namespace.Mkfs(n, names);
    HeldNone(ns.refs);
    ns.Open(ROOT);
    var i := 2;
    while i <= NINODE
      invariant 2 <= i <= NINODE + 1 && ns.Good() && |ns.inodes| == n && Made(ns.inodes, names, |names|)
      invariant Held(ns.refs) == i - 1 && ns.refs[ROOT] > 0 && forall j :: i <= j < n ==> ns.refs[j] == 0
    {
      ns.Open(i);
      i := i + 1;
    }
  }

  // iget's panic is reached by these calls and the creation of a file under a new name.
  method CreateWithFullTable(n: nat, names: seq<string>, name: string) returns (panicked: bool)
    requires n >= |names| + 3 && |names| >= NINODE - 1 && name !in names && name != "." && name != ".."
    requires forall i, j :: 0 <= i < j < |names| ==> names[i] != names[j]
    requires forall i :: 0 <= i < |names| ==> names[i] != "." && names[i] != ".."
    ensures panicked
  {
    var ns := FullTable(n, names);
    HeldSet(ns.refs, ROOT, ns.refs[ROOT] + 1);
    MadeAbsent(ns.inodes, names, |names|, name);
    assert ns.inodes[|names| + 2].typ == Free;
    ghost var k;
    var ip, made;
    ip, made, panicked, k := ns.Create(Some(ROOT), name, File, false, false, false);
  }

  const DIRENTS: nat := 17152    // entries in a directory as large as a file can be
  const NAMES: nat := 64000

  // Names for many links to one file.
  function Name(k: nat): (s: string)
    requires k < NAMES
    ensures |s| == 3
  {
    [('A' as int + k / 1600) as char, ('A' as int + k / 40 % 40) as char, ('A' as int + k % 40) as char]
  }

  lemma NameOnce(j: nat, k: nat)
    requires j < NAMES && k < NAMES && Name(j) == Name(k)
    ensures j == k
  {
    NameDigits(j);
    NameDigits(k);
    assert Name(j)[0] == Name(k)[0] && Name(j)[1] == Name(k)[1] && Name(j)[2] == Name(k)[2];
  }

  lemma NameDigits(k: nat)
    requires k < NAMES
    ensures k == 1600 * (Name(k)[0] as int - 'A' as int) + 40 * (Name(k)[1] as int - 'A' as int) + (Name(k)[2] as int - 'A' as int)
  {
    assert k / 40 == 40 * (k / 1600) + k / 40 % 40;
  }

  ghost predicate Unused(n: Inode, k: nat) {
    forall j :: k <= j < NAMES ==> Absent(n, Name(j))
  }

  // The file is linked under one more name, in directory d.
  method LinkOnce(ns: Namespace, i: nat, d: nat, k: nat)
    requires ns.Good() && 1 <= i < |ns.inodes| && d < |ns.inodes| && Held(ns.refs) == 0 && k < NAMES
    requires ns.inodes[i].typ == File && ns.inodes[i].nlink < MAXLINK && Linked(ns.inodes[d]) && Unused(ns.inodes[d], k)
    modifies ns
    ensures ns.Good() && ns.refs == old(ns.refs) && |ns.inodes| == |old(ns.inodes)|
    ensures ns.inodes[i] == old(ns.inodes)[i].(nlink := old(ns.inodes)[i].nlink + 1)
    ensures Linked(ns.inodes[d]) && Unused(ns.inodes[d], k + 1) && |ns.inodes[d].ents| <= |old(ns.inodes)[d].ents| + 1
    ensures forall j :: 0 <= j < |ns.inodes| && j != i && j != d ==> ns.inodes[j] == old(ns.inodes)[j]
  {
    ghost var l;
    var r, panicked;
    LinkSlots(ns.inodes, ns.refs, i, d, Name(k));
    r, panicked, l := ns.Link(Some(i), Some(d), Name(k), false);
    UsedUp(old(ns.inodes)[d], ns.inodes[d], l, i, k);
  }

  lemma LinkSlots(s: seq<Inode>, refs: seq<nat>, i: nat, d: nat, name: string)
    requires |refs| == |s| && i < |s| && d < |s| && Held(refs) == 0 && s[i].typ == File
    ensures !LinkPanics(s, refs, Some(i), Some(d), name)
  {
    HeldSet(refs, i, refs[i] + 1);
    SlotsSuffice(s, More(refs, i), d, name);
  }

  lemma UsedUp(n: Inode, m: Inode, l: nat, i: nat, k: nat)
    requires Unused(n, k) && k < NAMES && l <= |n.ents|
    requires m.ents == if l < |n.ents| then n.ents[l := Dirent(i, Name(k))] else n.ents + [Dirent(i, Name(k))]
    ensures Unused(m, k + 1)
  {
    forall j | k + 1 <= j < NAMES ensures Absent(m, Name(j)) {
      assert Absent(n, Name(j));
      if Name(j) == Name(k) {
        NameOnce(j, k);
      }
    }
  }

  /** The count wraps in a state that calls reach: mkfs of a file, mkdir, and links to the file in the
      root directory and the new one, neither of them larger than a file can be. */
  method LinksWrap(n: nat) returns (ns: Namespace)
    requires n >= 4
    ensures !Counted(ns.inodes) && |ns.inodes| == n && ns.inodes[2].nlink == -32768
    ensures forall j :: 1 <= j < n ==> |ns.inodes[j].ents| <= DIRENTS
  {
    var d;
    ns, d := FileAndDirectory(n);
    LinkUpTo(ns, ROOT, 1, 17000);
    LinkUpTo(ns, d, 17000, MAXLINK);
    ghost var l;
    var r, panicked;
    assert Absent(ns.inodes[d], Name(MAXLINK));
    LinkSlots(ns.inodes, ns.refs, 2, d, Name(MAXLINK));
    r, panicked, l := ns.Link(Some(2), Some(d), Name(MAXLINK), false);
  }

  // mkfs of a file, and mkdir.
  method FileAndDirectory(n: nat) returns (ns: Namespace, d: nat)
    requires n >= 4
    ensures fresh(ns) && ns.Good() && |ns.inodes| == n && Held(ns.refs) == 0
    ensures 3 <= d < n && ns.inodes[d] == NewInode(d, Dir, ROOT) && ns.inodes[2] == Inode(File, 1, [])
    ensures Linked(ns.inodes[ROOT]) && |ns.inodes[ROOT].ents| <= 4 && Unused(ns.inodes[ROOT], 1)
    ensures forall j :: 3 <= j < n && j != d ==> ns.inodes[j].ents == []
  {
    ns := new Namespace.Mkfs(n, ["f"]);
    HeldNone(ns.refs);
    assert ns.inodes[3].typ == Free;
    ghost var k;
    d, k := ns.Mkdir(ROOT, "d");
    ShortUnused(ns.inodes[ROOT]);
  }

  lemma ShortUnused(n: Inode)
    requires forall j :: 0 <= j < |n.ents| ==> |n.ents[j].name| < 3
    ensures Unused(n, 0)
  {
    forall j | 0 <= j < NAMES ensures Absent(n, Name(j)) {
      assert |Name(j)| == 3;
    }
  }

  // Links under the names from `from` on, until there are `to` of them.
  method LinkUpTo(ns: Namespace, d: nat, from: nat, to: nat)
    requires ns.Good() && 3 <= |ns.inodes| && Held(ns.refs) == 0 && from <= to <= MAXLINK
    requires d < |ns.inodes| && Linked(ns.inodes[d]) && Unused(ns.inodes[d], from)
    requires ns.inodes[2].typ == File && ns.inodes[2].nlink == from
    modifies ns
    ensures ns.Good() && ns.refs == old(ns.refs) && |ns.inodes| == |old(ns.inodes)|
    ensures ns.inodes[2] == old(ns.inodes)[2].(nlink := to)
    ensures Linked(ns.inodes[d]) && Unused(ns.inodes[d], to) && |ns.inodes[d].ents| <= |old(ns.inodes)[d].ents| + to - from
    ensures forall j :: 0 <= j < |ns.inodes| && j != 2 && j != d ==> ns.inodes[j] == old(ns.inodes)[j]
  {
    var k := from;
    while k < to
      invariant from <= k <= to && ns.Good() && ns.refs == old(ns.refs) && |ns.inodes| == |old(ns.inodes)|
      invariant ns.inodes[2] == old(ns.inodes)[2].(nlink := k)
      invariant Linked(ns.inodes[d]) && Unused(ns.inodes[d], k) && |ns.inodes[d].ents| <= |old(ns.inodes)[d].ents| + k - from
      invariant forall j :: 0 <= j < |ns.inodes| && j != 2 && j != d ==> ns.inodes[j] == old(ns.inodes)[j]
    {
      LinkOnce(ns, 2, d, k);
      k := k + 1;
    }
  }
}
