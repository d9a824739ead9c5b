/** tfs_rename and the change_dir calls. */
module Navigation {
  import opened Layout
  import opened Shapes
  import opened Volume
  import opened Chains
  import opened Directory
  import opened Tree
  import opened Entries
  import opened Links
  import opened Mounted
  import opened DirOps

  // ----- tfs_rename -----

  /** The books after the entry called n of directory h, stored in slot s, became m. */
  ghost function Renamed(sh: Shape, h: nat, s: Slot, n: Name, m: Name, blk: nat): Shape
    requires h in sh.slots
  {
    sh.(slots := sh.slots[h := (sh.slots[h] - {n})[m := s]], up := UpMoved(sh.up, blk, Entry(h, m)))
  }

  ghost predicate SameParents(dirs: set<nat>, up: map<nat, Entry>, up': map<nat, Entry>)
  {
    forall h :: h in dirs ==> ParentOf(up', h) == ParentOf(up, h)
  }

  /** Only the names in the upward pointers changed. */
  lemma UpRenamed(disk: seq<Block>, sh: Shape, sh': Shape)
    requires OwnOk(sh) && DirsOk(disk, sh) && FilesOk(disk, sh)
    requires sh' == sh.(up := sh'.up) && SameParents(sh.slots.Keys, sh.up, sh'.up)
    ensures OwnOk(sh') && DirsOk(disk, sh') && FilesOk(disk, sh')
    ensures TreeOf(disk, sh') == TreeOf(disk, sh) && FilesOf(disk, sh') == FilesOf(disk, sh)
  {
    hide DirOk, Lists, Listing, DataChain, Flat, Distinct;
    assert forall x :: x in sh.chains ==> ChainOwned(sh, x);
  }

  /** Renaming points the chain back to the same directory. */
  lemma RenameParents(T: Listings, heads: set<nat>, up: map<nat, Entry>, depth: map<nat, nat>, e: Entry, m: Name)
    requires RefsOk(T, heads, up, Nothing) && e.dir in T && e.name in T[e.dir] && DepthOk(T.Keys, up, depth)
    ensures var blk := T[e.dir][e.name].blk; var up' := UpMoved(up, blk, Entry(e.dir, m));
      SameParents(T.Keys, up, up') && DepthOk(T.Keys, up', depth)
  {
    hide RefsOk;
    ItemUp(T, heads, up, e);
  }

  lemma ItemUp(T: Listings, heads: set<nat>, up: map<nat, Entry>, e: Entry)
    requires RefsOk(T, heads, up, Nothing) && e.dir in T && e.name in T[e.dir]
    ensures var x := T[e.dir][e.name].blk; x != 0 ==> x in up && up[x] == e
  {
    assert ItemOk(T[e.dir][e.name], e, T.Keys, heads, up);
  }

  /** An entry was renamed in place: the listing changes under these two names only. */
  lemma WfRenamed(disk: seq<Block>, disk': seq<Block>, marked: set<nat>, sh: Shape, h: nat, n: Name, m: Name)
    requires Wf(disk, marked, sh, {}, Nothing) && h in sh.slots && h in sh.chains && GoodName(m)
    requires n in sh.slots[h] && m !in sh.slots[h] && InRange(Lists(disk, sh.chains[h]), sh.slots[h][n])
    requires var s := sh.slots[h][n];
      ItemWrittenAt(disk, disk', sh, h, s, Lists(disk, sh.chains[h])[s.i][s.k].(name := m))
    ensures h in TreeOf(disk, sh) && n in TreeOf(disk, sh)[h]
    ensures var it := TreeOf(disk, sh)[h][n]; var sh' := Renamed(sh, h, sh.slots[h][n], n, m, it.blk);
      && Wf(disk', marked, sh', {}, Nothing)
      && TreeOf(disk', sh') == PutEntry(DropEntry(TreeOf(disk, sh), Entry(h, n)), Entry(h, m), it.(name := m))
      && FilesOf(disk', sh') == FilesOf(disk, sh)
  {
    hide OwnOk, DirsOk, FilesOk, Lists, Listing, TreeOf, FilesOf, Index, Packed, DirChain, ItemWrittenAt,
      Distinct, Elems, RefsOk, DepthOk, MarksOk, Usable, ParentOf, SameParents, UpMoved;
    var L: seq<seq<Item>> := Lists(disk, sh.chains[h]);
    var t, e, s := sh.slots[h], Entry(h, n), sh.slots[h][n];
    DirOf(disk, sh, h);
    ListingAt(L, t);
    RenameIndex(L, t, n, m);
    var it := L[s.i][s.k].(name := m);
    var t' := (t - {n})[m := s];
    ItemWritten(disk, disk', sh, h, s, it, t');
    WrittenSize(disk, disk', sh, h, s, it);
    TreeKeys(disk, sh);
    var T: Listings := TreeOf(disk, sh);
    RenameParents(T, sh.chains.Keys, sh.up, sh.depth, e, m);
    RefsRename(T, sh.chains.Keys, sh.up, e, m);
    var sh1 := sh.(slots := sh.slots[h := t']);
    assert sh1.slots.Keys == T.Keys;
    var sh' := Renamed(sh, h, s, n, m, it.blk);
    assert sh'.up == UpMoved(sh.up, it.blk, Entry(h, m));
    UpRenamed(disk', sh1, sh');
    assert PutEntry(DropEntry(T, e), Entry(h, m), it) == T[h := (T[h] - {n})[m := it]];
    MarksSame(|disk|, marked, sh, sh', {});
  }

  lemma KeptRenamed(sh: Shape, h: nat, s: Slot, n: Name, m: Name, blk: nat)
    requires h in sh.slots && n in sh.slots[h] && m !in sh.slots[h] && s == sh.slots[h][n]
    ensures var sh' := Renamed(sh, h, s, n, m, blk);
      && Kept(sh, sh', {Entry(h, n)}, {}) && sh'.chains == sh.chains
      && h in sh'.slots && m in sh'.slots[h] && sh'.slots[h][m] == s
  {
  }

  /** tfs_rename. */
  method Rename(g: Fs, from: CString, to: CString)
    requires Inv(g)
    modifies g`disk, g`marked, g`sh, g`err, g`loadedBitmapBlk, g`buf, g`loadedDirBlk, g.bitmap
    ensures Inv(g) && Files(g) == old(Files(g)) && FreeBlocks(g) == old(FreeBlocks(g))
    ensures old(g.err) == NoDev ==> g.err == NoDev && g.disk == old(g.disk) && g.sh == old(g.sh)
    ensures old(g.err) != NoDev ==>
      g.err == if to == "" then NoName else if Stored(to) in old(Here(g)) then FileExist
               else if from == "" then NoName else if Stored(from) !in old(Here(g)) then NotExist else None
    ensures g.err != None ==> Dirs(g) == old(Dirs(g))
    ensures g.err == None ==> Stored(from) in old(Here(g)) && g.currentDirBlk in old(Dirs(g))
    ensures g.err == None ==>
      var e, it := Entry(g.currentDirBlk, Stored(from)), old(Here(g))[Stored(from)];
      Dirs(g) == PutEntry(DropEntry(old(Dirs(g)), e), Entry(e.dir, Stored(to)), it.(name := Stored(to)))
    ensures g.err != None ==> g.sh == old(g.sh)
    ensures g.err == None ==>
      && Stored(from) in old(CurSlots(g)) && Stored(to) in CurSlots(g)
      && CurSlots(g)[Stored(to)] == old(CurSlots(g))[Stored(from)] && CurChain(g) == old(CurChain(g))
      && Kept(old(g.sh), g.sh, {Entry(g.currentDirBlk, Stored(from))}, {})
  {
    hide Wf, OwnOk, DirsOk, FilesOk, RefsOk, DepthOk, MarksOk, Lists, Listing, TreeOf, FilesOf, Index, Packed,
      DirChain, SameOutside, Elems, Usable, BitmapsOn, MarkedOn, Distinct, HasFree, Canonical, Renamed, Here,
      FreeBlocks, PutEntry, DropEntry, Stored, Holding, Kept;
    if g.err == NoDev {
      return;
    }
    g.err := None;
    var item;
    ghost var s;
    item, s := LookUp(g, to, {}, Nothing);
    if g.err != None {
      return;
    }
    if item != Null {
      g.err := FileExist;
      return;
    }
    item, s := LookUp(g, from, {}, Nothing);
    if g.err != None {
      return;
    }
    if item == Null {
      g.err := NotExist;
      return;
    }
    StoreName(g, item.slot, s, Stored(from), to);
  }

  /** The end of tfs_rename: the item gets the new name and its block is written. */
  method StoreName(g: Fs, k: nat, ghost s: Slot, ghost n: Name, to: CString)
    requires Inv(g) && Buffered(g, s) && k == s.k && n in CurSlots(g) && s == CurSlots(g)[n]
    requires to != "" && Stored(to) !in Here(g)
    modifies g`disk, g`sh, g`buf
    ensures Inv(g) && Files(g) == old(Files(g))
    ensures g.currentDirBlk in old(Dirs(g)) && n in old(Here(g))
    ensures var e, it := Entry(g.currentDirBlk, n), old(Here(g))[n];
      Dirs(g) == PutEntry(DropEntry(old(Dirs(g)), e), Entry(e.dir, Stored(to)), it.(name := Stored(to)))
    ensures n in old(CurSlots(g)) && Stored(to) in CurSlots(g) && CurSlots(g)[Stored(to)] == old(CurSlots(g))[n]
    ensures CurChain(g) == old(CurChain(g)) && Kept(old(g.sh), g.sh, {Entry(g.currentDirBlk, n)}, {})
  {
    hide Wf, OwnOk, DirsOk, FilesOk, RefsOk, DepthOk, MarksOk, Lists, Listing, TreeOf, FilesOf, Index, Packed,
      DirChain, SameOutside, Elems, Usable, BitmapsOn, MarkedOn, Distinct, HasFree, Canonical, Renamed, Kept;
    ghost var disk0, sh0, h := g.disk, g.sh, g.currentDirBlk;
    CurDir(g, {}, Nothing);
    HereLive(g, {}, Nothing);
    FreshFacts(g, {}, Nothing);
    BufferedUsable(g, {}, Nothing, s);
    g.buf := g.buf.(items := g.buf.items[k := g.buf.items[k].(name := Stored(to))]);
    g.WriteBlock(g.loadedDirBlk, g.buf);
    WfRenamed(disk0, g.disk, g.marked, sh0, h, n, Stored(to));
    KeptRenamed(sh0, h, s, n, Stored(to), TreeOf(disk0, sh0)[h][n].blk);
    g.sh := Renamed(sh0, h, s, n, Stored(to), TreeOf(disk0, sh0)[h][n].blk);
    RenamedFields(sh0, h, s, n, Stored(to), TreeOf(disk0, sh0)[h][n].blk);
  }

  lemma RenamedFields(sh: Shape, h: nat, s: Slot, n: Name, m: Name, blk: nat)
    requires h in sh.slots
    ensures Renamed(sh, h, s, n, m, blk).chains == sh.chains
    ensures Renamed(sh, h, s, n, m, blk).slots.Keys == sh.slots.Keys
  {
  }

  // ----- tfs_change_dir_root, tfs_change_dir, tfs_change_dir_parent -----

  /** tfs_change_dir_root. */
  method ChangeDirRoot(g: Fs)
    requires Inv(g)
    modifies g`currentDirBlk
    ensures Inv(g) && g.currentDirBlk == ROOT
  {
    hide Wf, BitmapsOn, MarkedOn;
    RootFacts(g.disk, g.marked, g.sh);
    g.currentDirBlk := ROOT;
  }

  lemma RootFacts(disk: seq<Block>, marked: set<nat>, sh: Shape)
    requires Wf(disk, marked, sh, {}, Nothing)
    ensures ROOT in sh.slots && ROOT in sh.chains
  {
    hide OwnOk, DirsOk, FilesOk, DepthOk, MarksOk, TreeOf, RefsOk;
    TreeKeys(disk, sh);
    DirsAreChains(disk, sh);
    RefsHead(TreeOf(disk, sh), sh.chains.Keys, sh.up, Nothing);
  }

  /** tfs_change_dir. */
  method ChangeDir(g: Fs, name: CString)
    requires Inv(g)
    modifies g`err, g`currentDirBlk, g`disk, g`marked, g`sh, g`loadedBitmapBlk, g`buf, g`loadedDirBlk, g.bitmap
    ensures Inv(g) && g.disk == old(g.disk) && g.sh == old(g.sh) && g.marked == old(g.marked)
    ensures old(g.err) == NoDev ==> g.err == NoDev
    ensures old(g.err) != NoDev ==>
      g.err == if name == "" then NoName
               else if Stored(name) in old(Here(g)) && old(Here(g))[Stored(name)].typ == Dir then None else NotExist
    ensures g.err != None ==> g.currentDirBlk == old(g.currentDirBlk)
    ensures g.err == None ==> Stored(name) in old(Here(g)) && g.currentDirBlk == old(Here(g))[Stored(name)].blk
    // the way back
    ensures g.err == None ==> g.currentDirBlk != ROOT && ParentOf(g.sh.up, g.currentDirBlk) == old(g.currentDirBlk)
  {
    hide OwnOk, DirsOk, FilesOk, RefsOk, DepthOk, MarksOk, Lists, Listing, TreeOf, FilesOf, Index, Wf,
      Packed, DirChain, SameOutside, Elems, Usable, BitmapsOn, MarkedOn, Distinct, HasFree, Canonical;
    if g.err == NoDev {
      return;
    }
    g.err := None;
    var item;
    ghost var s;
    item, s := LookUp(g, name, {}, Nothing);
    if g.err != None {
      return;
    }
    if item == Null || g.buf.items[item.slot].typ != Dir {
      g.err := NotExist;
      return;
    }
    CurDir(g, {}, Nothing);
    SubdirFacts(g.disk, g.marked, g.sh, Entry(g.currentDirBlk, Stored(name)));
    g.currentDirBlk := g.buf.items[item.slot].blk;
  }

  /** A directory entry leads to a directory whose parent pointer leads back. */
  lemma SubdirFacts(disk: seq<Block>, marked: set<nat>, sh: Shape, e: Entry)
    requires Wf(disk, marked, sh, {}, Nothing)
    requires var T := TreeOf(disk, sh); e.dir in T && e.name in T[e.dir] && T[e.dir][e.name].typ == Dir
    ensures var x := TreeOf(disk, sh)[e.dir][e.name].blk;
      x in sh.slots && x in sh.chains && x != ROOT && ParentOf(sh.up, x) == e.dir
  {
    hide OwnOk, DirsOk, FilesOk, DepthOk, MarksOk, Lists, Listing, TreeOf, FilesOf;
    var T: Listings := TreeOf(disk, sh);
    assert ItemOk(T[e.dir][e.name], e, T.Keys, sh.chains.Keys, sh.up);
    TreeKeys(disk, sh);
  }

  /** tfs_change_dir_parent: it fails in the root directory only. */
  method ChangeDirParent(g: Fs)
    requires Inv(g)
    modifies g`err, g`currentDirBlk, g`buf
    ensures Inv(g)
    ensures old(g.err) == NoDev ==> g.err == NoDev && g.currentDirBlk == old(g.currentDirBlk)
    ensures old(g.err) != NoDev ==> g.err == if old(g.currentDirBlk) == ROOT then NotExist else None
    ensures g.err != None ==> g.currentDirBlk == old(g.currentDirBlk)
    ensures g.err == None ==> g.currentDirBlk == ParentOf(g.sh.up, old(g.currentDirBlk))
  {
    hide OwnOk, DirsOk, FilesOk, RefsOk, MarksOk, Lists, Listing, TreeOf, FilesOf, Index,
      Packed, DirChain, BitmapsOn, MarkedOn, Distinct, ParentOf;
    if g.err == NoDev {
      return;
    }
    g.err := None;
    CurDir(g, {}, Nothing);
    ParentFacts(g.disk, g.marked, g.sh, g.currentDirBlk);
    HeadParent(g.disk, CurChain(g), CurParent(g));
    g.buf := g.ReadBlock(g.currentDirBlk);
    if g.buf.parent == 0 {
      g.err := NotExist;
      return;
    }
    g.currentDirBlk := g.buf.parent;
  }

  lemma HeadParent(disk: seq<Block>, c: seq<nat>, parent: nat)
    requires DirChain(disk, c, parent)
    ensures c[0] < |disk| && disk[c[0]].DirBlk? && disk[c[0]].parent == parent
  {
    assert DirAt(disk, c, parent, 0);
  }

  /** Every directory but the root has a parent directory, one step nearer to the root. */
  lemma ParentFacts(disk: seq<Block>, marked: set<nat>, sh: Shape, h: nat)
    requires Wf(disk, marked, sh, {}, Nothing) && h in sh.slots
    ensures ParentOf(sh.up, h) == 0 <==> h == ROOT
    ensures h != ROOT ==> var p := ParentOf(sh.up, h);
      p in sh.slots && p in sh.chains && h in sh.depth && p in sh.depth && sh.depth[p] + 1 == sh.depth[h]
  {
    hide OwnOk, DirsOk, FilesOk, MarksOk, TreeOf;
    TreeKeys(disk, sh);
    DirsAreChains(disk, sh);
    RefsHead(TreeOf(disk, sh), sh.chains.Keys, sh.up, Nothing);
  }

  /** tfs_change_dir into a subdirectory, then tfs_change_dir_parent: back where it began. */
  method EnterAndLeave(g: Fs, name: CString) returns (entered: bool)
    requires Inv(g) && g.err != NoDev
    modifies g`err, g`currentDirBlk, g`disk, g`marked, g`sh, g`loadedBitmapBlk, g`buf, g`loadedDirBlk, g.bitmap
    ensures Inv(g) && g.currentDirBlk == old(g.currentDirBlk) && Dirs(g) == old(Dirs(g))
    ensures entered <==> g.err == None
    ensures entered <==> name != "" && Stored(name) in old(Here(g)) && old(Here(g))[Stored(name)].typ == Dir
  {
    hide Holding, TreeOf, ParentOf;
    ChangeDir(g, name);
    entered := g.err == None;
    if entered {
      ChangeDirParent(g);
    }
  }

  /** The directory reached from h by k steps towards the root. */
  ghost function Ancestor(up: map<nat, Entry>, h: nat, k: nat): nat
    decreases k
  {
    if k == 0 then h else Ancestor(up, ParentOf(up, h), k - 1)
  }

  /** Repeated change_dir_parent reaches the root, after exactly depth[h] steps. */
  lemma {:induction false} ParentsReachRoot(disk: seq<Block>, marked: set<nat>, sh: Shape, h: nat)
    requires Wf(disk, marked, sh, {}, Nothing) && h in sh.slots
    ensures h in sh.depth && Ancestor(sh.up, h, sh.depth[h]) == ROOT
    ensures forall k :: 0 <= k < sh.depth[h] ==> Ancestor(sh.up, h, k) in sh.slots && Ancestor(sh.up, h, k) != ROOT
    decreases if h in sh.depth then sh.depth[h] else 0
  {
    hide OwnOk, DirsOk, FilesOk, MarksOk, TreeOf, RefsOk;
    ParentFacts(disk, marked, sh, h);
    if h == ROOT {
    } else {
      ParentsReachRoot(disk, marked, sh, ParentOf(sh.up, h));
      forall k | 0 <= k < sh.depth[h]
        ensures Ancestor(sh.up, h, k) in sh.slots && Ancestor(sh.up, h, k) != ROOT
      {
        if k > 0 {
          assert Ancestor(sh.up, h, k) == Ancestor(sh.up, ParentOf(sh.up, h), k - 1);
        }
      }
    }
  }
}
