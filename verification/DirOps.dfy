/** Writing one directory item, and tfs_create_dir. */
module DirOps {
  import opened Layout
  import opened Shapes
  import opened Volume
  import opened Allocator
  import opened Chains
  import opened Directory
  import opened Tree
  import opened Entries
  import opened Links
  import opened Mounted

  // ----- writing one item -----

  lemma RechainedSame(sh: Shape, h: nat)
    requires OwnOk(sh) && h in sh.chains
    ensures Rechained(sh, h, sh.chains[h]) == sh && Fits(sh, h, sh.chains[h])
  {
    assert ChainOwned(sh, h);
    var sh' := Rechained(sh, h, sh.chains[h]);
    assert sh'.own == sh.own by {
      forall b ensures b in sh'.own <==> b in sh.own {
      }
    }
    assert sh'.chains == sh.chains;
  }

  /** Item s of directory h became `it`, and nothing else that is owned changed. */
  ghost predicate ItemWrittenAt(disk: seq<Block>, disk': seq<Block>, sh: Shape, h: nat, s: Slot, it: Item)
    requires h in sh.chains
  {
    var c := sh.chains[h];
    && |disk'| == |disk| && s.i < |c| && c[s.i] < |disk| && disk[c[s.i]].DirBlk? && s.k < |disk[c[s.i]].items|
    && disk'[c[s.i]] == disk[c[s.i]].(items := disk[c[s.i]].items[s.k := it])
    && forall b :: b in sh.own && b < |disk| && b != c[s.i] ==> disk'[b] == disk[b]
  }

  lemma ItemWrittenChain(disk: seq<Block>, disk': seq<Block>, sh: Shape, h: nat, s: Slot, it: Item, parent: nat)
    requires OwnOk(sh) && h in sh.chains && ItemWrittenAt(disk, disk', sh, h, s, it)
    requires DirChain(disk, sh.chains[h], parent)
    ensures InRange(Lists(disk, sh.chains[h]), s)
    ensures DirChain(disk', sh.chains[h], parent)
    ensures Lists(disk', sh.chains[h]) == SetItem(Lists(disk, sh.chains[h]), s, it)
    ensures forall b :: b in sh.own && b < |disk| && sh.own[b] != h ==> disk'[b] == disk[b]
  {
    var c := sh.chains[h];
    assert ChainOwned(sh, h) && DirAt(disk, c, parent, s.i);
    var items := disk[c[s.i]].items[s.k := it];
    var mid := disk[c[s.i] := disk[c[s.i]].(items := items)];
    ItemsReplaced(disk, mid, c, parent, s.i, items);
    assert Agree(mid, disk', c) by {
      forall i | 0 <= i < |c| && c[i] < |mid| ensures disk'[c[i]] == mid[c[i]] {
        assert c[i] in c;
      }
    }
    FrameDir(mid, disk', c, parent);
  }

  lemma ItemWritten(disk: seq<Block>, disk': seq<Block>, sh: Shape, h: nat, s: Slot, it: Item, t: map<Name, Slot>)
    requires OwnOk(sh) && DirsOk(disk, sh) && FilesOk(disk, sh) && h in sh.slots && h in sh.chains
    requires ItemWrittenAt(disk, disk', sh, h, s, it) && InRange(Lists(disk, sh.chains[h]), s)
    requires var L := SetItem(Lists(disk, sh.chains[h]), s, it); Index(L, t) && Packed(L)
    ensures var sh' := sh.(slots := sh.slots[h := t]);
      && OwnOk(sh') && DirsOk(disk', sh') && FilesOk(disk', sh') && FilesOf(disk', sh') == FilesOf(disk, sh)
      && TreeOf(disk', sh') == TreeOf(disk, sh)[h := Listing(SetItem(Lists(disk, sh.chains[h]), s, it), t)]
  {
    hide OwnOk, DirsOk, FilesOk, Lists, Listing, TreeOf, FilesOf, Index, Packed, DirChain, Fits, Rechained,
      ItemWrittenAt, Distinct, Elems;
    DirOf(disk, sh, h);
    RechainedSame(sh, h);
    ItemWrittenChain(disk, disk', sh, h, s, it, ParentOf(sh.up, h));
    assert |disk'| == |disk| by { WrittenSize(disk, disk', sh, h, s, it); }
    DirUpdated(disk, disk', sh, h, sh.chains[h], t);
  }

  lemma WrittenSize(disk: seq<Block>, disk': seq<Block>, sh: Shape, h: nat, s: Slot, it: Item)
    requires h in sh.chains && ItemWrittenAt(disk, disk', sh, h, s, it)
    ensures |disk'| == |disk|
  {
  }

  // ----- tfs_create_dir -----

  lemma DepthNewDir(dirs: set<nat>, up: map<nat, Entry>, depth: map<nat, nat>, x: nat, e: Entry)
    requires DepthOk(dirs, up, depth) && x !in dirs && e.dir in dirs && ROOT in dirs
    ensures e.dir in depth && DepthOk(dirs + {x}, up[x := e], depth[x := depth[e.dir] + 1])
  {
  }

  /** Slot s of directory h got an item for the new directory x, whose block was cleared. */
  lemma WfDirCreated(disk: seq<Block>, disk': seq<Block>, marked: set<nat>, sh: Shape, h: nat, s: Slot, x: nat, n: Name)
    requires Wf(disk, marked, sh, {}, Nothing) && h in sh.slots && h in sh.chains && GoodName(n)
    requires x < |disk| && x !in marked
    requires ItemWrittenAt(disk, disk', sh, h, s, Item(Dir, x, 0, n)) && disk'[x] == DirBlk(0, 0, h, FreeItems())
    requires InRange(Lists(disk, sh.chains[h]), s) && Lists(disk, sh.chains[h])[s.i][s.k].typ == Free
    requires n !in sh.slots[h]
    ensures var sh' := WithDir(sh.(slots := sh.slots[h := sh.slots[h][n := s]]), x, Entry(h, n));
      && h in TreeOf(disk, sh) && x !in TreeOf(disk, sh)
      && Wf(disk', marked + {x}, sh', {}, Nothing)
      && TreeOf(disk', sh') == PutEntry(TreeOf(disk, sh), Entry(h, n), Item(Dir, x, 0, n))[x := map[]]
      && FilesOf(disk', sh') == FilesOf(disk, sh)
      && h in sh'.slots && h in sh'.chains
  {
    hide OwnOk, DirsOk, FilesOk, Lists, Listing, TreeOf, FilesOf, Index, Packed, DirChain, Fits, ItemWrittenAt,
      Distinct, Elems, RefsOk, DepthOk, MarksOk, WithChain, Usable;
    var e, it := Entry(h, n), Item(Dir, x, 0, n);
    var sh1 := sh.(slots := sh.slots[h := sh.slots[h][n := s]]);
    var sh' := WithDir(sh1, x, e);
    var L := Lists(disk, sh.chains[h]);
    DirOf(disk, sh, h);
    ListingAt(L, sh.slots[h]);
    MarksImply(|disk|, marked, sh, {});
    PutIndex(L, sh.slots[h], s, it);
    ItemWritten(disk, disk', sh, h, s, it, sh.slots[h][n := s]);
    WrittenSize(disk, disk', sh, h, s, it);
    RefsHead(TreeOf(disk, sh), sh.chains.Keys, sh.up, Nothing);
    TreeKeys(disk, sh);
    HeadsOwned(sh);
    DirAdded(disk', sh1, x, e);
    RefsNewDir(TreeOf(disk, sh), sh.chains.Keys, sh.up, e, it);
    DepthNewDir(sh.slots.Keys, sh.up, sh.depth, x, e);
    WithDirFields(sh1, x, e);
    MarksChange(|disk|, marked, marked + {x}, sh, sh', {}, {});
    assert sh1.slots.Keys == sh.slots.Keys;
  }

  lemma WithDirFields(sh: Shape, x: nat, e: Entry)
    ensures var sh' := WithDir(sh, x, e);
      && sh'.chains == sh.chains[x := [x]] && sh'.slots == sh.slots[x := map[]] && sh'.up == sh.up[x := e]
      && sh'.chains.Keys == sh.chains.Keys + {x} && sh'.slots.Keys == sh.slots.Keys + {x}
      && (e.dir in sh.depth ==> sh'.depth == sh.depth[x := sh.depth[e.dir] + 1])
  {
  }

  /** tfs_create_dir. The entry needs a slot, and the new directory a block of its own. */
  method CreateDir(g: Fs, name: CString) returns (ghost x: nat)
    requires Inv(g)
    modifies g`disk, g`marked, g`sh, g`err, g`loadedBitmapBlk, g`buf, g`loadedDirBlk, g.bitmap
    ensures Inv(g) && Files(g) == old(Files(g))
    ensures old(g.err) == NoDev ==> g.err == NoDev && g.disk == old(g.disk) && g.sh == old(g.sh)
    ensures old(g.err) != NoDev ==> (g.err == NoName <==> name == "")
    ensures old(g.err) != NoDev && name != "" ==> (g.err == FileExist <==> Stored(name) in old(Here(g)))
    ensures old(g.err) != NoDev && name != "" && Stored(name) !in old(Here(g)) ==>
      g.err == if |old(FreeBlocks(g))| <= old(SlotCost(g)) then DiskFull else None
    ensures g.err == DiskFull ==> FreeBlocks(g) == {}
    ensures g.err in {NoName, FileExist} ==> FreeBlocks(g) == old(FreeBlocks(g))
    ensures g.err == None ==> |FreeBlocks(g)| == |old(FreeBlocks(g))| - old(SlotCost(g)) - 1
    ensures g.err != None ==> Dirs(g) == old(Dirs(g))
    ensures g.err == None ==> x in old(FreeBlocks(g)) && x !in old(Dirs(g)) && g.currentDirBlk in old(Dirs(g))
    ensures g.err == None ==>
      Dirs(g) == PutEntry(old(Dirs(g)), Entry(g.currentDirBlk, Stored(name)), Item(Dir, x, 0, Stored(name)))[x := map[]]
    ensures Kept(old(g.sh), g.sh, {Entry(g.currentDirBlk, Stored(name))}, {})
    ensures g.err in {NoName, FileExist} ==> Kept(old(g.sh), g.sh, {}, {})
    // the new entry stands in the first free slot of the directory
    ensures g.err == None ==> StoredAt(old(Lists(g.disk, CurChain(g))), old(CurSlots(g)), CurSlots(g), Stored(name))
  {
    hide Wf, OwnOk, DirsOk, FilesOk, RefsOk, DepthOk, MarksOk, Lists, Listing, TreeOf, FilesOf, Index, Packed,
      DirChain, SameOutside, Elems, Usable, BitmapsOn, MarkedOn, Distinct, HasFree, WithDir, Canonical, Kept,
      PutEntry, FreeBlocks, Earliest;
    x := 0;
    ghost var sh0, e := g.sh, Entry(g.currentDirBlk, Stored(name));
    KeptSelf(sh0, {e}, {});
    if g.err == NoDev {
      return;
    }
    g.err := None;
    HereLive(g, {}, Nothing);
    var item;
    ghost var s;
    item, s := FindSlot(g, name);
    KeptMore(sh0, g.sh, {}, {}, {e}, {});
    if g.err != None {
      return;
    }
    if g.buf.items[item.slot].typ != Free {
      g.err := FileExist;
      return;
    }
    HereLive(g, {}, Nothing);
    ghost var sh1 := g.sh;
    x := NewSubdir(g, item.slot, s, name);
    KeptTwice(sh0, sh1, g.sh, {}, {}, {e}, {}, {e}, {});
  }

  /** The second half of tfs_create_dir: takes a block, writes the item and clears the block. */
  method NewSubdir(g: Fs, k: nat, ghost s: Slot, name: CString) returns (newBlk: nat)
    requires Inv(g) && g.err == None && Buffered(g, s) && k == s.k && g.buf.items[k].typ == Free
    requires name != "" && Stored(name) !in Here(g)
    modifies g`disk, g`marked, g`sh, g`err, g`loadedBitmapBlk, g`buf, g.bitmap
    ensures Inv(g) && Files(g) == old(Files(g))
    ensures g.err == if old(FreeBlocks(g)) == {} then DiskFull else None
    ensures g.err == DiskFull ==> Dirs(g) == old(Dirs(g)) && FreeBlocks(g) == {}
    ensures g.err == None ==> FreeBlocks(g) == old(FreeBlocks(g)) - {newBlk}
    ensures g.err == None ==> newBlk in old(FreeBlocks(g)) && newBlk !in old(Dirs(g)) && g.currentDirBlk in old(Dirs(g))
    ensures g.err == None ==>
      Dirs(g) == PutEntry(old(Dirs(g)), Entry(g.currentDirBlk, Stored(name)),
          Item(Dir, newBlk, 0, Stored(name)))[newBlk := map[]]
    ensures Kept(old(g.sh), g.sh, {Entry(g.currentDirBlk, Stored(name))}, {})
    ensures g.err == None ==> Stored(name) in CurSlots(g) && CurSlots(g)[Stored(name)] == s
  {
    hide Wf, FilesOk, Lists, TreeOf, FilesOf, Usable, BitmapsOn, MarkedOn, SameContents, WithDir, Canonical, PutEntry,
      GoodName, FreeItems, Stored, Distinct, Elems, DirOk, InRange, DirChain, FreeSet, Kept;
    ghost var disk0, marked0, sh0, h, n := g.disk, g.marked, g.sh, g.currentDirBlk, Stored(name);
    assert h in Dirs(g) by { CurDir(g, {}, Nothing); }
    assert n !in CurSlots(g) by { HereLive(g, {}, Nothing); }
    FullMeansNoneFree(g);
    KeptSelf(sh0, {Entry(h, n)}, {});
    newBlk := AllocBlock(g);
    if g.err != None {
      return;
    }
    TakenBlock(g.blkCount, marked0, newBlk);
    GoodStored(name);
    ghost var mid := g.disk;
    PlaceOfItem(disk0, mid, marked0, sh0, h, s, newBlk);
    g.buf := g.buf.(items := g.buf.items[k := Item(Dir, newBlk, 0, Stored(name))]);
    g.WriteBlock(g.loadedDirBlk, g.buf);
    g.buf := DirBlk(0, 0, g.currentDirBlk, FreeItems());
    g.WriteBlock(newBlk, g.buf);
    SubdirMade(disk0, mid, g.disk, marked0, sh0, h, s, newBlk, n);
    KeptNewDir(disk0, marked0, sh0, h, n, s, newBlk);
    g.sh := WithDir(sh0.(slots := sh0.slots[h := sh0.slots[h][n := s]]), newBlk, Entry(h, n));
  }

  lemma KeptNewDir(disk: seq<Block>, marked: set<nat>, sh: Shape, h: nat, n: Name, s: Slot, x: nat)
    requires Wf(disk, marked, sh, {}, Nothing) && h in sh.slots && x !in marked
    ensures var sh1 := sh.(slots := sh.slots[h := sh.slots[h][n := s]]);
      && Kept(sh, WithDir(sh1, x, Entry(h, n)), {Entry(h, n)}, {})
      && h in WithDir(sh1, x, Entry(h, n)).slots && n in WithDir(sh1, x, Entry(h, n)).slots[h]
      && WithDir(sh1, x, Entry(h, n)).slots[h][n] == s
  {
    hide OwnOk, DirsOk, FilesOk, RefsOk, DepthOk, TreeOf, Kept, WithDir;
    var sh1 := sh.(slots := sh.slots[h := sh.slots[h][n := s]]);
    MarksImply(|disk|, marked, sh, {});
    HeadsOwned(sh);
    DirsAreChains(disk, sh);
    KeptSlot(sh, h, n, s);
    WithDirFields(sh1, x, Entry(h, n));
    KeptWithDir(sh1, x, Entry(h, n));
    KeptTwice(sh, sh1, WithDir(sh1, x, Entry(h, n)), {Entry(h, n)}, {}, {}, {}, {Entry(h, n)}, {});
  }

  lemma GoodStored(name: CString)
    requires name != ""
    ensures GoodName(Stored(name))
  {
  }

  lemma PlaceOfItem(disk: seq<Block>, mid: seq<Block>, marked: set<nat>, sh: Shape, h: nat, s: Slot, x: nat)
    requires Wf(disk, marked, sh, {}, Nothing) && SameContents(disk, mid) && h in sh.slots && h in sh.chains
    requires x < |disk| && x !in marked && InRange(Lists(disk, sh.chains[h]), s)
    ensures s.i < |sh.chains[h]|
    ensures var b := sh.chains[h][s.i];
      && Usable(b, |disk|) && Usable(x, |disk|) && b < |disk| == |mid| && b != x && mid[b] == disk[b]
  {
    hide Wf, Lists, ItemWrittenAt, SameContents;
    SubdirPlace(disk, mid, marked, sh, h, s, x, []);
    UsableNonZero(sh.chains[h][s.i], |disk|);
  }

  /** The two writes of tfs_create_dir make the fresh block x an empty directory under the name n. */
  lemma SubdirMade(disk: seq<Block>, mid: seq<Block>, disk': seq<Block>, marked: set<nat>, sh: Shape, h: nat,
                   s: Slot, x: nat,
                   n: Name)
    requires Wf(disk, marked, sh, {}, Nothing) && SameContents(disk, mid) && h in sh.slots && h in sh.chains
    requires x < |disk| == |mid| && x !in marked && GoodName(n) && n !in sh.slots[h]
    requires InRange(Lists(disk, sh.chains[h]), s) && Lists(disk, sh.chains[h])[s.i][s.k].typ == Free
    requires s.i < |sh.chains[h]|
    requires var b := sh.chains[h][s.i];
      && b < |disk| && disk[b].DirBlk? && s.k < |disk[b].items|
      && disk' ==
           mid[b := disk[b].(items := disk[b].items[s.k := Item(Dir, x, 0, n)])][x := DirBlk(0, 0, h, FreeItems())]
    ensures var it, sh' := Item(Dir, x, 0, n),
        WithDir(sh.(slots := sh.slots[h := sh.slots[h][n := s]]), x, Entry(h, n));
      && h in TreeOf(disk, sh) && x !in TreeOf(disk, sh) && Wf(disk', marked + {x}, sh', {}, Nothing)
      && TreeOf(disk', sh') == PutEntry(TreeOf(disk, sh), Entry(h, n), it)[x := map[]]
      && FilesOk(disk, sh) && FilesOk(disk', sh') && FilesOf(disk', sh') == FilesOf(disk, sh)
      && h in sh'.slots && h in sh'.chains
  {
    hide Wf, Lists, TreeOf, FilesOf, FilesOk, ItemWrittenAt, WithDir, FreeItems, PutEntry, GoodName, SameContents;
    SubdirPlace(disk, mid, marked, sh, h, s, x, n);
    WfDirCreated(disk, disk', marked, sh, h, s, x, n);
    WfFilesOk(disk, marked, sh, {}, Nothing);
    WfFilesOk(disk', marked + {x}, WithDir(sh.(slots := sh.slots[h := sh.slots[h][n := s]]), x, Entry(h, n)),
              {}, Nothing);
  }

  /** Where tfs_create_dir writes: the item's block and the fresh block x are different blocks of
      the volume, and writing them changes no other owned block. */
  lemma SubdirPlace(disk: seq<Block>, mid: seq<Block>, marked: set<nat>, sh: Shape, h: nat, s: Slot, x: nat, n: Name)
    requires Wf(disk, marked, sh, {}, Nothing) && SameContents(disk, mid) && h in sh.slots && h in sh.chains
    requires x < |disk| && x !in marked
    requires InRange(Lists(disk, sh.chains[h]), s)
    ensures s.i < |sh.chains[h]|
    ensures var b := sh.chains[h][s.i];
      && Usable(b, |disk|) && Usable(x, |disk|) && b != x
      && mid[b] == disk[b] && disk[b].DirBlk? && s.k < |disk[b].items|
      && |mid| == |disk| && Lists(disk, sh.chains[h])[s.i] == disk[b].items
      && var it := Item(Dir, x, 0, n);
         ItemWrittenAt(disk, mid[b := disk[b].(items := disk[b].items[s.k := it])][x := DirBlk(0, 0, h, FreeItems())],
             sh, h, s, it)
  {
    hide DirsOk, FilesOk, RefsOk, DepthOk, TreeOf;
    DirOf(disk, sh, h);
    MarksImply(|disk|, marked, sh, {});
    assert ChainOwned(sh, h) && sh.chains[h][s.i] in sh.chains[h];
    assert DirAt(disk, sh.chains[h], ParentOf(sh.up, h), s.i);
  }
}
