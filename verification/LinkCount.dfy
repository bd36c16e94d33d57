/** Directory entries and link counts (kernel/sysfile.c, kernel/fs.c): the values. */
module LinkCount {

  const ROOT: nat := 1

  datatype Type = Free | Dir | File | Device
  datatype Dirent = Dirent(inum: nat, name: string)
  datatype Inode = Inode(typ: Type, nlink: int, ents: seq<Dirent>)

  const MAXLINK: int := 32767    // nlink is a short

  // What a short holds after the assignment of x.
  function Short(x: int): (y: int)
    ensures -MAXLINK - 1 <= y <= MAXLINK && (y == x <==> -MAXLINK - 1 <= x <= MAXLINK)
  {
    (x + MAXLINK + 1) % (2 * (MAXLINK + 1)) - MAXLINK - 1
  }

  ghost predicate Linked(n: Inode) {
    n.typ == Dir && n.nlink > 0
  }

  // Entries of es naming i, "." aside.
  ghost function Occ(es: seq<Dirent>, i: nat): (c: nat) {
    if es == [] then 0
    else Occ(es[..|es| - 1], i) + if es[|es| - 1].inum == i && es[|es| - 1].name != "." then 1 else 0
  }

  ghost function Share(n: Inode, i: nat): (c: nat) {
    if Linked(n) then Occ(n.ents, i) else 0
  }

  // Entries naming i, "." aside, in all linked directories.
  ghost function Tally(s: seq<Inode>, i: nat): (c: nat) {
    if s == [] then 0 else Tally(s[..|s| - 1], i) + Share(s[|s| - 1], i)
  }

  ghost predicate Counted(s: seq<Inode>) {
    forall i {:trigger Tally(s, i)} :: 1 <= i < |s| ==> s[i].nlink == Tally(s, i)
  }

  // ---- counting ----

  lemma {:induction false} OccSet(es: seq<Dirent>, k: nat, e: Dirent, i: nat)
    requires k < |es|
    ensures Occ(es[k := e], i) == Occ(es, i) - (if es[k].inum == i && es[k].name != "." then 1 else 0)
                                             + (if e.inum == i && e.name != "." then 1 else 0)
  {
    var n := |es| - 1;
    if k < n {
      OccSet(es[..n], k, e, i);
      assert es[k := e][..n] == es[..n][k := e];
    } else {
      assert es[k := e][..n] == es[..n];
    }
  }

  lemma OccAdd(es: seq<Dirent>, e: Dirent, i: nat)
    ensures Occ(es + [e], i) == Occ(es, i) + (if e.inum == i && e.name != "." then 1 else 0)
  {
    assert (es + [e])[..|es|] == es;
  }

  lemma {:induction false} OccNone(es: seq<Dirent>, i: nat)
    requires forall k :: 0 <= k < |es| ==> es[k].inum != i || es[k].name == "."
    ensures Occ(es, i) == 0
  {
    if es != [] {
      OccNone(es[..|es| - 1], i);
    }
  }

  lemma {:induction false} OccSome(es: seq<Dirent>, i: nat, k: nat)
    requires k < |es| && es[k].inum == i && es[k].name != "."
    ensures Occ(es, i) >= 1
  {
    if k < |es| - 1 {
      OccSome(es[..|es| - 1], i, k);
    }
  }

  lemma OccTwo(es: seq<Dirent>, i: nat, k: nat, l: nat)
    requires k < l < |es| && es[k].inum == es[l].inum == i && es[k].name != "." && es[l].name != "." && i != 0
    ensures Occ(es, i) >= 2
  {
    OccSome(es[k := Dirent(0, "")], i, l);
    OccSet(es, k, Dirent(0, ""), i);
  }

  lemma {:induction false} TallySet(s: seq<Inode>, d: nat, n: Inode, i: nat)
    requires d < |s|
    ensures Tally(s[d := n], i) == Tally(s, i) - Share(s[d], i) + Share(n, i)
  {
    var m := |s| - 1;
    if d < m {
      TallySet(s[..m], d, n, i);
      assert s[d := n][..m] == s[..m][d := n];
    } else {
      assert s[d := n][..m] == s[..m];
    }
  }

  lemma {:induction false} TallySome(s: seq<Inode>, d: nat, i: nat)
    requires d < |s|
    ensures Tally(s, i) >= Share(s[d], i)
  {
    if d < |s| - 1 {
      TallySome(s[..|s| - 1], d, i);
    }
  }

  // One directory alone names i.
  lemma {:induction false} TallyOnly(s: seq<Inode>, d: nat, i: nat)
    requires d < |s| && forall e :: 0 <= e < |s| && e != d ==> Share(s[e], i) == 0
    ensures Tally(s, i) == Share(s[d], i)
  {
    var m := |s| - 1;
    if d < m {
      TallyOnly(s[..m], d, i);
    } else {
      TallyNone(s[..m], i);
    }
  }

  lemma {:induction false} TallyNone(s: seq<Inode>, i: nat)
    requires forall e :: 0 <= e < |s| ==> Share(s[e], i) == 0
    ensures Tally(s, i) == 0
  {
    if s != [] {
      TallyNone(s[..|s| - 1], i);
    }
  }

  // ---- the tree ----

  ghost predicate EntOk(s: seq<Inode>, d: nat, k: nat) {
    d < |s| && s[d].typ == Dir && 2 <= k < |s[d].ents| && s[d].ents[k].inum != 0 ==>
      var e := s[d].ents[k];
      && s[d].nlink > 0
      && e.name != "." && e.name != ".."
      && e.inum < |s| && e.inum != ROOT && s[e.inum].typ != Free
      && (s[e.inum].typ == Dir ==> s[e.inum].nlink > 0 && |s[e.inum].ents| >= 2 && s[e.inum].ents[1].inum == d)
  }

  // Two entries of a directory have different names, and do not name one directory twice.
  ghost predicate TwoOk(s: seq<Inode>, d: nat, k: nat, l: nat) {
    d < |s| && s[d].typ == Dir && 0 <= k < l < |s[d].ents| && s[d].ents[k].inum != 0 && s[d].ents[l].inum != 0 ==>
      && s[d].ents[k].name != s[d].ents[l].name
      && (2 <= k && s[d].ents[k].inum < |s| && s[s[d].ents[k].inum].typ == Dir ==> s[d].ents[k].inum != s[d].ents[l].inum)
  }

  ghost predicate DirOk(s: seq<Inode>, d: nat) {
    d < |s| && s[d].typ == Dir ==>
      && |s[d].ents| >= 2 && s[d].ents[0] == Dirent(d, ".") && s[d].ents[1].name == ".." && 0 < s[d].ents[1].inum < |s|
      && (s[d].nlink > 0 && d != ROOT ==> HasParent(s, d))
  }

  ghost predicate HasParent(s: seq<Inode>, d: nat)
    requires d < |s| && |s[d].ents| >= 2
  {
    var p := s[d].ents[1].inum;
    p < |s| && Linked(s[p]) && exists k {:trigger s[p].ents[k]} :: 2 <= k < |s[p].ents| && s[p].ents[k].inum == d
  }

  ghost predicate Tree(s: seq<Inode>) {
    && |s| > ROOT && s[0].typ == Free && Linked(s[ROOT]) && |s[ROOT].ents| >= 2 && s[ROOT].ents[1].inum == ROOT
    && (forall i :: 0 <= i < |s| ==> 0 <= s[i].nlink <= MAXLINK && (s[i].typ == Free ==> s[i] == Inode(Free, 0, [])))
    && (forall d: nat {:trigger DirOk(s, d)} :: DirOk(s, d))
    && (forall d: nat, k: nat {:trigger EntOk(s, d, k)} :: EntOk(s, d, k))
    && (forall d: nat, k: nat, l: nat {:trigger TwoOk(s, d, k, l)} :: TwoOk(s, d, k, l))
  }

  // Directory ip holds nothing but "." and "..".
  ghost predicate Empty(n: Inode) {
    forall k :: 2 <= k < |n.ents| ==> n.ents[k].inum == 0
  }

  /** The entry that unlink finds names an inode that is linked: its panic is unreachable. */
  lemma NamedIsLinked(s: seq<Inode>, d: nat, k: nat)
    requires Tree(s) && Counted(s) && d < |s| && s[d].typ == Dir && 2 <= k < |s[d].ents| && s[d].ents[k].inum != 0
    ensures var i := s[d].ents[k].inum;
            i < |s| && s[d].nlink > 0 && s[i].nlink >= 1
  {
    var i := s[d].ents[k].inum;
    assert EntOk(s, d, k);
    OccSome(s[d].ents, i, k);
    TallySome(s, d, i);
  }

  /** An empty directory that an entry names has that one link only. */
  lemma EmptyHasOneLink(s: seq<Inode>, d: nat, k: nat)
    requires Tree(s) && Counted(s) && d < |s| && s[d].typ == Dir && 2 <= k < |s[d].ents| && s[d].ents[k].inum != 0
    requires var i := s[d].ents[k].inum; i < |s| && s[i].typ == Dir && Empty(s[i])
    ensures s[s[d].ents[k].inum].nlink == 1 && s[d].ents[k].inum != d
  {
    var i := s[d].ents[k].inum;
    assert EntOk(s, d, k);
    forall e | 0 <= e < |s| && e != d ensures Share(s[e], i) == 0 {
      NoOtherNames(s, d, k, e);
    }
    TallyOnly(s, d, i);
    NamesOnce(s, d, k);
  }

  lemma NoOtherNames(s: seq<Inode>, d: nat, k: nat, e: nat)
    requires Tree(s) && d < |s| && s[d].typ == Dir && 2 <= k < |s[d].ents| && s[d].ents[k].inum != 0
    requires var i := s[d].ents[k].inum; i < |s| && s[i].typ == Dir && Empty(s[i])
    requires e < |s| && e != d
    ensures Share(s[e], s[d].ents[k].inum) == 0
  {
    var i := s[d].ents[k].inum;
    assert EntOk(s, d, k) && DirOk(s, e);
    if Linked(s[e]) {
      forall j | 0 <= j < |s[e].ents| ensures s[e].ents[j].inum != i || s[e].ents[j].name == "." {
        assert EntOk(s, e, j);
      }
      OccNone(s[e].ents, i);
    }
  }

  lemma NamesOnce(s: seq<Inode>, d: nat, k: nat)
    requires Tree(s) && d < |s| && s[d].typ == Dir && 2 <= k < |s[d].ents| && s[d].ents[k].inum != 0
    requires var i := s[d].ents[k].inum; i < |s| && s[i].typ == Dir && Empty(s[i])
    ensures Share(s[d], s[d].ents[k].inum) == 1
  {
    var i := s[d].ents[k].inum;
    assert EntOk(s, d, k) && DirOk(s, d) && DirOk(s, i);
    var es := s[d].ents[k := Dirent(0, "")];
    forall j | 0 <= j < |es| ensures es[j].inum != i || es[j].name == "." {
      assert TwoOk(s, d, k, j) && TwoOk(s, d, j, k);
    }
    OccNone(es, i);
    OccSet(s[d].ents, k, Dirent(0, ""), i);
  }

  // ---- what the system calls do to the inodes ----

  // Write entry e at slot k of directory d, which is a free one or the end.
  ghost function Enter(s: seq<Inode>, d: nat, k: nat, e: Dirent): (r: seq<Inode>)
    requires d < |s| && k <= |s[d].ents|
  {
    var es := s[d].ents;
    s[d := s[d].(ents := if k < |es| then es[k := e] else es + [e])]
  }

  ghost predicate FreeSlot(n: Inode, k: nat) {
    k <= |n.ents| && (k < |n.ents| ==> n.ents[k].inum == 0)
  }

  // name is not in directory n.
  ghost predicate Absent(n: Inode, name: string) {
    forall k :: 0 <= k < |n.ents| && n.ents[k].inum != 0 ==> n.ents[k].name != name
  }

  ghost function Relink(s: seq<Inode>, i: nat, delta: int): (r: seq<Inode>)
    requires i < |s|
  {
    s[i := s[i].(nlink := Short(s[i].nlink + delta))]
  }

  lemma EnterTally(s: seq<Inode>, d: nat, k: nat, e: Dirent, i: nat)
    requires d < |s| && FreeSlot(s[d], k) && e.name != "." && i != 0
    ensures Tally(Enter(s, d, k, e), i) == Tally(s, i) + (if Linked(s[d]) && e.inum == i then 1 else 0)
  {
    var es := s[d].ents;
    var r := Enter(s, d, k, e);
    TallySet(s, d, r[d], i);
    if k < |es| {
      OccSet(es, k, e, i);
    } else {
      OccAdd(es, e, i);
    }
  }

  lemma RelinkTally(s: seq<Inode>, j: nat, delta: int, i: nat)
    requires j < |s| && (s[j].typ == Dir ==> (s[j].nlink > 0 <==> Short(s[j].nlink + delta) > 0))
    ensures Tally(Relink(s, j, delta), i) == Tally(s, i)
  {
    TallySet(s, j, s[j].(nlink := Short(s[j].nlink + delta)), i);
  }

  // sys_link's success.
  ghost function Linking(s: seq<Inode>, i: nat, d: nat, k: nat, name: string): (r: seq<Inode>)
    requires i < |s| && d < |s| && i != d && k <= |s[d].ents|
  {
    Enter(Relink(s, i, 1), d, k, Dirent(i, name))
  }

  /** link keeps every count right exactly when the directory it writes to is itself linked and
      the count has room for one more. */
  lemma LinkCounts(s: seq<Inode>, i: nat, d: nat, k: nat, name: string)
    requires Counted(s) && 1 <= i < |s| && d < |s| && i != d && s[i].typ != Dir && FreeSlot(s[d], k) && name != "."
    requires s[d].typ == Dir
    ensures Counted(Linking(s, i, d, k, name)) <==> s[d].nlink > 0 && s[i].nlink < MAXLINK
  {
    var r := Linking(s, i, d, k, name);
    forall j | 1 <= j < |s| ensures Tally(r, j) == Tally(s, j) + (if s[d].nlink > 0 && j == i then 1 else 0) {
      RelinkTally(s, i, 1, j);
      EnterTally(Relink(s, i, 1), d, k, Dirent(i, name), j);
    }
    assert s[i].nlink == Tally(s, i) && r[i].nlink == Short(s[i].nlink + 1);
    if s[d].nlink > 0 && s[i].nlink < MAXLINK {
      forall j | 1 <= j < |r| ensures r[j].nlink == Tally(r, j) {
        assert s[j].nlink == Tally(s, j);
      }
    } else {
      assert r[i].nlink != Tally(r, i);
    }
  }

  /** The 32768th link of a file leaves it with a count of -32768. */
  lemma LinkWraps(s: seq<Inode>, i: nat, d: nat, k: nat, name: string)
    requires Counted(s) && 1 <= i < |s| && d < |s| && i != d && s[i].typ != Dir && FreeSlot(s[d], k) && name != "."
    requires Linked(s[d]) && s[i].nlink == MAXLINK
    ensures var r := Linking(s, i, d, k, name); r[i].nlink == -32768 && Tally(r, i) == 32768
  {
    RelinkTally(s, i, 1, i);
    EnterTally(Relink(s, i, 1), d, k, Dirent(i, name), i);
    assert s[i].nlink == Tally(s, i);
  }

  lemma EnterAt(s: seq<Inode>, d: nat, k: nat, e: Dirent, j: nat)
    requires d < |s| && k <= |s[d].ents|
    ensures var r := Enter(s, d, k, e);
            && |r[d].ents| == (if k < |s[d].ents| then |s[d].ents| else k + 1)
            && (j < |r[d].ents| ==> r[d].ents[j] == if j == k then e else s[d].ents[j])
  {
  }

  // What a new entry in directory d needs; the inode is not a directory, so it gets no second parent.
  ghost predicate CanEnter(s: seq<Inode>, d: nat, k: nat, e: Dirent) {
    && d < |s| && Linked(s[d]) && FreeSlot(s[d], k) && Absent(s[d], e.name) && e.name != "." && e.name != ".."
    && 0 < e.inum < |s| && e.inum != ROOT && s[e.inum].typ != Free && s[e.inum].typ != Dir
  }

  lemma EnterDirOk(s: seq<Inode>, d: nat, k: nat, e: Dirent, c: nat)
    requires Tree(s) && CanEnter(s, d, k, e)
    ensures DirOk(Enter(s, d, k, e), c)
  {
    var r := Enter(s, d, k, e);
    assert DirOk(s, d) && k >= 2 && DirOk(s, c);
    if c < |s| && Linked(s[c]) && c != ROOT {
      var p := s[c].ents[1].inum;
      var j :| 2 <= j < |s[p].ents| && s[p].ents[j].inum == c;
      EnterAt(s, d, k, e, j);
      assert r[p].ents[j].inum == c;
    }
  }

  lemma EnterEntOk(s: seq<Inode>, d: nat, k: nat, e: Dirent, c: nat, j: nat)
    requires Tree(s) && CanEnter(s, d, k, e)
    ensures EntOk(Enter(s, d, k, e), c, j)
  {
    assert EntOk(s, c, j);
    EnterAt(s, d, k, e, j);
    EnterAt(s, d, k, e, 1);
    assert DirOk(s, d) && k >= 2;
  }

  lemma EnterTwoOk(s: seq<Inode>, d: nat, k: nat, e: Dirent, c: nat, j: nat, l: nat)
    requires Tree(s) && CanEnter(s, d, k, e)
    ensures TwoOk(Enter(s, d, k, e), c, j, l)
  {
    assert TwoOk(s, c, j, l);
    EnterAt(s, d, k, e, j);
    EnterAt(s, d, k, e, l);
  }

  lemma EnterTree(s: seq<Inode>, d: nat, k: nat, e: Dirent)
    requires Tree(s) && CanEnter(s, d, k, e)
    ensures Tree(Enter(s, d, k, e))
  {
    var r := Enter(s, d, k, e);
    assert DirOk(s, d) && k >= 2;
    EnterAt(s, d, k, e, 1);
    forall c: nat ensures DirOk(r, c) {
      EnterDirOk(s, d, k, e, c);
    }
    forall c: nat, j: nat ensures EntOk(r, c, j) {
      EnterEntOk(s, d, k, e, c, j);
    }
    forall c: nat, j: nat, l: nat ensures TwoOk(r, c, j, l) {
      EnterTwoOk(s, d, k, e, c, j, l);
    }
  }

  // A count may change as long as no directory gains or loses its last link.
  lemma RelinkTree(s: seq<Inode>, i: nat, delta: int)
    requires Tree(s) && i < |s| && s[i].typ != Free && 0 <= s[i].nlink + delta <= MAXLINK
    requires s[i].typ == Dir ==> s[i].nlink > 0 && s[i].nlink + delta > 0
    ensures Tree(Relink(s, i, delta))
  {
    var r := Relink(s, i, delta);
    forall c: nat ensures DirOk(r, c) {
      assert DirOk(s, c);
      if c < |s| && Linked(s[c]) && c != ROOT {
        var p := s[c].ents[1].inum;
        var j :| 2 <= j < |s[p].ents| && s[p].ents[j].inum == c;
        assert r[p].ents[j].inum == c;
      }
    }
    forall c: nat, j: nat ensures EntOk(r, c, j) {
      assert EntOk(s, c, j);
    }
    forall c: nat, j: nat, l: nat ensures TwoOk(r, c, j, l) {
      assert TwoOk(s, c, j, l);
    }
  }

  lemma LinkTree(s: seq<Inode>, i: nat, d: nat, k: nat, name: string)
    requires Tree(s) && 1 <= i < |s| && d < |s| && i != d && s[i].typ != Dir && s[i].typ != Free
    requires Linked(s[d]) && FreeSlot(s[d], k) && Absent(s[d], name) && s[i].nlink < MAXLINK
    ensures Tree(Linking(s, i, d, k, name))
  {
    RelinkTree(s, i, 1);
    assert DirOk(s, d) && s[d].ents[0].name == "." && s[d].ents[1].name == "..";
    EnterTree(Relink(s, i, 1), d, k, Dirent(i, name));
  }

  // ---- create ----

  ghost function NewInode(i: nat, typ: Type, d: nat): (n: Inode) {
    Inode(typ, 1, if typ == Dir then [Dirent(i, "."), Dirent(d, "..")] else [])
  }

  // create's success: the new inode, its entry in d and, for a directory, d's link from "..".
  ghost function Creating(s: seq<Inode>, i: nat, typ: Type, d: nat, k: nat, name: string): (r: seq<Inode>)
    requires i < |s| && d < |s| && i != d && k <= |s[d].ents|
  {
    var m := Enter(s[i := NewInode(i, typ, d)], d, k, Dirent(i, name));
    if typ == Dir then Relink(m, d, 1) else m
  }

  lemma NewTally(s: seq<Inode>, i: nat, typ: Type, d: nat, j: nat)
    requires i < |s| && s[i].typ == Free && j != 0
    ensures Tally(s[i := NewInode(i, typ, d)], j) == Tally(s, j) + (if typ == Dir && j == d then 1 else 0)
  {
    var n := NewInode(i, typ, d);
    TallySet(s, i, n, j);
    if typ == Dir {
      OccAdd([Dirent(i, ".")], Dirent(d, ".."), j);
      OccAdd([], Dirent(i, "."), j);
      assert n.ents == [Dirent(i, ".")] + [Dirent(d, "..")];
      assert [Dirent(i, ".")] == [] + [Dirent(i, ".")];
    }
  }

  // The parent's count has room for the link that a new directory's ".." is.
  predicate CountFits(n: Inode, typ: Type) {
    typ == Dir ==> n.nlink < MAXLINK
  }

  /** create keeps every count right exactly when the parent directory is itself linked, and, for a
      directory, its count has room. */
  lemma CreateCounts(s: seq<Inode>, i: nat, typ: Type, d: nat, k: nat, name: string)
    requires Counted(s) && Tree(s) && 1 <= i < |s| && d < |s| && s[i].typ == Free && typ != Free
    requires s[d].typ == Dir && FreeSlot(s[d], k) && name != "."
    ensures Counted(Creating(s, i, typ, d, k, name)) <==> s[d].nlink > 0 && CountFits(s[d], typ)
  {
    var r := Creating(s, i, typ, d, k, name);
    assert s[i].nlink == Tally(s, i) == 0;
    if s[d].nlink > 0 && CountFits(s[d], typ) {
      forall j | 1 <= j < |r| ensures r[j].nlink == Tally(r, j) {
        assert s[j].nlink == Tally(s, j);
        CreatedTally(s, i, typ, d, k, name, j);
      }
    } else if s[d].nlink > 0 {
      assert r[d].nlink == Short(s[d].nlink + 1) < 0 <= Tally(r, d);
    } else if typ != Dir {
      CreatedTally(s, i, typ, d, k, name, i);
      assert r[i].nlink != Tally(r, i);
    } else {
      MkdirInUnlinked(s, i, d, k, name);
    }
  }

  // Entries that name j after create, unless a directory gains its first link or loses count.
  lemma CreatedTally(s: seq<Inode>, i: nat, typ: Type, d: nat, k: nat, name: string, j: nat)
    requires 1 <= i < |s| && d < |s| && s[i].typ == Free && typ != Free && 1 <= j < |s|
    requires s[d].typ == Dir && FreeSlot(s[d], k) && name != "." && 0 <= s[d].nlink <= MAXLINK
    requires typ == Dir ==> 0 < s[d].nlink < MAXLINK
    ensures Tally(Creating(s, i, typ, d, k, name), j)
         == Tally(s, j) + (if typ == Dir && j == d then 1 else 0) + (if s[d].nlink > 0 && j == i then 1 else 0)
  {
    var s1 := s[i := NewInode(i, typ, d)];
    NewTally(s, i, typ, d, j);
    EnterTally(s1, d, k, Dirent(i, name), j);
    if typ == Dir {
      RelinkTally(Enter(s1, d, k, Dirent(i, name)), d, 1, j);
    }
  }

  // A directory made in an unlinked one revives it, and its ".." is counted again.
  lemma MkdirInUnlinked(s: seq<Inode>, i: nat, d: nat, k: nat, name: string)
    requires Counted(s) && Tree(s) && 1 <= i < |s| && d < |s| && s[i].typ == Free
    requires s[d].typ == Dir && s[d].nlink == 0 && FreeSlot(s[d], k) && name != "."
    ensures !Counted(Creating(s, i, Dir, d, k, name))
  {
    assert DirOk(s, d);
    var q := s[d].ents[1].inum;
    var s1 := s[i := NewInode(i, Dir, d)];
    var m := Enter(s1, d, k, Dirent(i, name));
    var r := Creating(s, i, Dir, d, k, name);
    NewTally(s, i, Dir, d, q);
    EnterTally(s1, d, k, Dirent(i, name), q);
    TallySet(m, d, r[d], q);
    EnterAt(s1, d, k, Dirent(i, name), 1);
    EnterAt(s1, d, k, Dirent(i, name), k);
    assert k >= 2;
    OccSome(r[d].ents, q, 1);
    if q == i {
      OccTwo(r[d].ents, q, 1, k);
    }
    assert s[q].nlink == Tally(s, q);
    assert r[q].nlink != Tally(r, q);
  }

  lemma NewFileTree(s: seq<Inode>, i: nat, typ: Type, d: nat)
    requires Tree(s) && 1 <= i < |s| && s[i].typ == Free && typ != Free && typ != Dir
    ensures Tree(s[i := NewInode(i, typ, d)])
  {
    var r := s[i := NewInode(i, typ, d)];
    forall c: nat ensures DirOk(r, c) {
      assert DirOk(s, c);
      if c < |s| && Linked(s[c]) && c != ROOT {
        var p := s[c].ents[1].inum;
        var j :| 2 <= j < |s[p].ents| && s[p].ents[j].inum == c;
        assert r[p].ents[j].inum == c;
      }
    }
    forall c: nat, j: nat ensures EntOk(r, c, j) {
      assert EntOk(s, c, j);
    }
    forall c: nat, j: nat, l: nat ensures TwoOk(r, c, j, l) {
      assert TwoOk(s, c, j, l);
    }
  }

  lemma NewDirOk(s: seq<Inode>, i: nat, d: nat, k: nat, name: string, c: nat)
    requires Tree(s) && 1 <= i < |s| && d < |s| && s[i].typ == Free
    requires Linked(s[d]) && s[d].nlink < MAXLINK && FreeSlot(s[d], k) && Absent(s[d], name)
    ensures DirOk(Creating(s, i, Dir, d, k, name), c)
  {
    var s1 := s[i := NewInode(i, Dir, d)];
    var r := Creating(s, i, Dir, d, k, name);
    assert DirOk(s, c) && DirOk(s, d) && DirOk(s, i);
    assert k >= 2;
    EnterAt(s1, d, k, Dirent(i, name), 0);
    EnterAt(s1, d, k, Dirent(i, name), 1);
    EnterAt(s1, d, k, Dirent(i, name), k);
    if c == i {
      assert r[d].ents[k].inum == i;
    } else if c < |s| && Linked(s[c]) && c != ROOT {
      var p := s[c].ents[1].inum;
      var j :| 2 <= j < |s[p].ents| && s[p].ents[j].inum == c;
      EnterAt(s1, d, k, Dirent(i, name), j);
      assert r[p].ents[j].inum == c;
    }
  }

  lemma NewEntOk(s: seq<Inode>, i: nat, d: nat, k: nat, name: string, c: nat, j: nat)
    requires Tree(s) && 1 <= i < |s| && d < |s| && s[i].typ == Free
    requires Linked(s[d]) && s[d].nlink < MAXLINK && FreeSlot(s[d], k) && Absent(s[d], name)
    ensures EntOk(Creating(s, i, Dir, d, k, name), c, j)
  {
    var s1 := s[i := NewInode(i, Dir, d)];
    assert DirOk(s, d) && s[d].ents[0].name == "." && s[d].ents[1].name == "..";
    assert EntOk(s, c, j);
    EnterAt(s1, d, k, Dirent(i, name), 1);
    EnterAt(s1, d, k, Dirent(i, name), j);
  }

  lemma NewTwoOk(s: seq<Inode>, i: nat, d: nat, k: nat, name: string, c: nat, j: nat, l: nat)
    requires Tree(s) && 1 <= i < |s| && d < |s| && s[i].typ == Free
    requires Linked(s[d]) && s[d].nlink < MAXLINK && FreeSlot(s[d], k) && Absent(s[d], name)
    ensures TwoOk(Creating(s, i, Dir, d, k, name), c, j, l)
  {
    var s1 := s[i := NewInode(i, Dir, d)];
    assert TwoOk(s, c, j, l) && EntOk(s, c, j) && EntOk(s, c, l) && DirOk(s, d);
    EnterAt(s1, d, k, Dirent(i, name), j);
    EnterAt(s1, d, k, Dirent(i, name), l);
  }

  lemma CreateTree(s: seq<Inode>, i: nat, typ: Type, d: nat, k: nat, name: string)
    requires Tree(s) && 1 <= i < |s| && d < |s| && s[i].typ == Free && typ != Free
    requires Linked(s[d]) && CountFits(s[d], typ) && FreeSlot(s[d], k) && Absent(s[d], name)
    ensures Tree(Creating(s, i, typ, d, k, name))
  {
    if typ != Dir {
      assert DirOk(s, d) && s[d].ents[0].name == "." && s[d].ents[1].name == "..";
      NewFileTree(s, i, typ, d);
      EnterTree(s[i := NewInode(i, typ, d)], d, k, Dirent(i, name));
    } else {
      var r := Creating(s, i, typ, d, k, name);
      forall c: nat ensures DirOk(r, c) {
        NewDirOk(s, i, d, k, name, c);
      }
      forall c: nat, j: nat ensures EntOk(r, c, j) {
        NewEntOk(s, i, d, k, name, c, j);
      }
      forall c: nat, j: nat, l: nat ensures TwoOk(r, c, j, l) {
        NewTwoOk(s, i, d, k, name, c, j, l);
      }
      assert DirOk(s, ROOT);
      EnterAt(s[i := NewInode(i, typ, d)], d, k, Dirent(i, name), 1);
    }
  }

  // ---- unlink ----

  ghost function Removing(s: seq<Inode>, d: nat, k: nat): (r: seq<Inode>)
    requires d < |s| && k < |s[d].ents| && s[d].ents[k].inum < |s|
  {
    var i := s[d].ents[k].inum;
    var m := s[d := s[d].(ents := s[d].ents[k := Dirent(0, "")])];
    Relink(if s[i].typ == Dir then Relink(m, d, -1) else m, i, -1)
  }

  lemma {:induction false} TallyTwo(s: seq<Inode>, a: nat, b: nat, i: nat)
    requires a < b < |s|
    ensures Tally(s, i) >= Share(s[a], i) + Share(s[b], i)
  {
    if b < |s| - 1 {
      TallyTwo(s[..|s| - 1], a, b, i);
    } else {
      TallySome(s[..b], a, i);
    }
  }

  // A directory with an empty subdirectory has a link of its own besides the one from there.
  lemma ParentHasTwo(s: seq<Inode>, d: nat, i: nat)
    requires Tree(s) && Counted(s) && d < |s| && i < |s| && Linked(s[d]) && Linked(s[i]) && Empty(s[i]) && i != d
    requires DirOk(s, i) && s[i].ents[1].inum == d
    ensures s[d].nlink >= 2
  {
    assert DirOk(s, d) && DirOk(s, ROOT);
    assert s[d].nlink == Tally(s, d);
    OccSome(s[i].ents, d, 1);
    var p := if d == ROOT then d else s[d].ents[1].inum;
    if d == ROOT {
      OccSome(s[d].ents, d, 1);
    } else {
      var j :| 2 <= j < |s[p].ents| && s[p].ents[j].inum == d;
      assert EntOk(s, p, j);
      OccSome(s[p].ents, d, j);
    }
    assert d != 0 && p != i;
    if p < i {
      TallyTwo(s, p, i, d);
    } else {
      TallyTwo(s, i, p, d);
    }
  }

  lemma EmptyShare(n: Inode, d: nat, j: nat)
    requires |n.ents| >= 2 && n.ents[0].name == "." && n.ents[1] == Dirent(d, "..") && Empty(n) && j != 0
    ensures Occ(n.ents, j) == if j == d then 1 else 0
  {
    OccSet(n.ents, 1, Dirent(0, ""), j);
    OccNone(n.ents[1 := Dirent(0, "")], j);
  }

  lemma RemovedTally(s: seq<Inode>, d: nat, k: nat, j: nat)
    requires d < |s| && Linked(s[d]) && k < |s[d].ents| && s[d].ents[k].name != "." && 1 <= j < |s| && s[d].nlink <= MAXLINK
    requires var i := s[d].ents[k].inum;
             && i < |s|
             && (s[i].typ == Dir ==> Empty(s[i]) && i != d && s[d].nlink >= 2 && s[i].nlink == 1
                                     && |s[i].ents| >= 2 && s[i].ents[0].name == "." && s[i].ents[1] == Dirent(d, ".."))
    ensures var i := s[d].ents[k].inum;
            Tally(Removing(s, d, k), j) == Tally(s, j) - (if j == i then 1 else 0) - (if s[i].typ == Dir && j == d then 1 else 0)
  {
    var i := s[d].ents[k].inum;
    var m := s[d := s[d].(ents := s[d].ents[k := Dirent(0, "")])];
    TallySet(s, d, m[d], j);
    OccSet(s[d].ents, k, Dirent(0, ""), j);
    if s[i].typ == Dir {
      RelinkTally(m, d, -1, j);
      var q := Relink(m, d, -1);
      TallySet(q, i, q[i].(nlink := 0), j);
      EmptyShare(s[i], d, j);
    } else {
      RelinkTally(m, i, -1, j);
    }
  }

  // What unlink may assume: the entry it removes, and that a directory it names is empty.
  ghost predicate CanRemove(s: seq<Inode>, d: nat, k: nat) {
    && d < |s| && s[d].typ == Dir && 2 <= k < |s[d].ents| && 0 < s[d].ents[k].inum < |s|
    && (s[s[d].ents[k].inum].typ == Dir ==> Empty(s[s[d].ents[k].inum]))
  }

  // The counts around a removed entry.
  lemma RemovedLinks(s: seq<Inode>, d: nat, k: nat)
    requires Tree(s) && Counted(s) && CanRemove(s, d, k)
    ensures var i := s[d].ents[k].inum;
            && Linked(s[d]) && s[i].nlink >= 1 && s[i].typ != Free && i != ROOT && i != d
            && (s[i].typ == Dir ==> s[i].nlink == 1 && s[d].nlink >= 2)
  {
    var i := s[d].ents[k].inum;
    NamedIsLinked(s, d, k);
    assert EntOk(s, d, k) && DirOk(s, i);
    if s[i].typ == Dir {
      EmptyHasOneLink(s, d, k);
      ParentHasTwo(s, d, i);
    }
  }

  lemma RemovedDirOk(s: seq<Inode>, d: nat, k: nat, c: nat)
    requires Tree(s) && Counted(s) && CanRemove(s, d, k)
    ensures DirOk(Removing(s, d, k), c)
  {
    var i := s[d].ents[k].inum;
    var r := Removing(s, d, k);
    RemovedLinks(s, d, k);
    assert DirOk(s, c);
    if c < |s| && Linked(s[c]) && c != ROOT && !(c == i && s[i].typ == Dir) {
      var p := s[c].ents[1].inum;
      var j :| 2 <= j < |s[p].ents| && s[p].ents[j].inum == c;
      assert r[p].ents[j].inum == c;
    }
  }

  lemma RemovedEntOk(s: seq<Inode>, d: nat, k: nat, c: nat, j: nat)
    requires Tree(s) && Counted(s) && CanRemove(s, d, k)
    ensures EntOk(Removing(s, d, k), c, j)
  {
    RemovedLinks(s, d, k);
    assert EntOk(s, c, j) && EntOk(s, d, k) && TwoOk(s, d, j, k) && TwoOk(s, d, k, j);
  }

  /** unlink keeps every count right: a removed directory takes its ".." link with it. */
  lemma UnlinkCounts(s: seq<Inode>, d: nat, k: nat)
    requires Tree(s) && Counted(s) && CanRemove(s, d, k)
    ensures Counted(Removing(s, d, k))
  {
    var i := s[d].ents[k].inum;
    var r := Removing(s, d, k);
    RemovedLinks(s, d, k);
    assert EntOk(s, d, k) && DirOk(s, i);
    forall j | 1 <= j < |s| ensures r[j].nlink == Tally(r, j) {
      assert s[j].nlink == Tally(s, j);
      RemovedTally(s, d, k, j);
    }
  }

  lemma UnlinkTree(s: seq<Inode>, d: nat, k: nat)
    requires Tree(s) && Counted(s) && CanRemove(s, d, k)
    ensures Tree(Removing(s, d, k))
  {
    var r := Removing(s, d, k);
    RemovedLinks(s, d, k);
    assert DirOk(s, d);
    forall c: nat ensures DirOk(r, c) {
      RemovedDirOk(s, d, k, c);
    }
    forall c: nat, j: nat ensures EntOk(r, c, j) {
      RemovedEntOk(s, d, k, c, j);
    }
    forall c: nat, j: nat, l: nat ensures TwoOk(r, c, j, l) {
      assert TwoOk(s, c, j, l);
    }
  }

  // ---- iput's last reference to an unlinked inode ----

  lemma FreeOk(s: seq<Inode>, i: nat)
    requires Tree(s) && Counted(s) && i < |s| && s[i].nlink == 0
    ensures var r := s[i := Inode(Free, 0, [])]; Tree(r) && Counted(r)
  {
    var r := s[i := Inode(Free, 0, [])];
    forall j | 1 <= j < |s| ensures r[j].nlink == Tally(r, j) {
      assert s[j].nlink == Tally(s, j);
      TallySet(s, i, r[i], j);
    }
    forall c: nat ensures DirOk(r, c) {
      assert DirOk(s, c);
      if c < |s| && Linked(s[c]) && c != ROOT {
        var p := s[c].ents[1].inum;
        var j :| 2 <= j < |s[p].ents| && s[p].ents[j].inum == c;
        assert r[p].ents[j].inum == c;
      }
    }
    forall c: nat, j: nat ensures EntOk(r, c, j) {
      assert EntOk(s, c, j);
      if c < |s| && s[c].typ == Dir && 2 <= j < |s[c].ents| && s[c].ents[j].inum != 0 {
        NamedIsLinked(s, c, j);
      }
    }
    forall c: nat, j: nat, l: nat ensures TwoOk(r, c, j, l) {
      assert TwoOk(s, c, j, l);
    }
  }
}
