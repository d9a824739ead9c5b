/** The namespace operations refine the abstract tree of Spaces. */
module SpaceSteps {
  import opened Layout
  import opened Shapes
  import opened Volume
  import opened Chains
  import opened Directory
  import opened Tree
  import opened Entries
  import opened Links
  import opened Mounted
  import opened Detaching
  import opened DirOps
  import opened Navigation
  import opened Delete
  import opened FileOps
  import opened Paths
  import opened Spaces

  /** The names of the current directory that count as open. */
  ghost function BusyNames(g: Fs): set<Name>
    reads g`sh, g`currentDirBlk, g.handles
  {
    set n | n in CurSlots(g) && OpenCount(g, n) > 0
  }

  /** What the mounted volume means. */
  ghost function SpaceOf(g: Fs): Space
    requires FilesOk(g.disk, g.sh)
    reads g`disk, g`marked, g`sh, g`currentDirBlk, g`err, g.handles
  {
    Space(Dirs(g), Files(g), g.currentDirBlk, g.err, |FreeBlocks(g)|, SlotCost(g), BusyNames(g))
  }

  lemma {:induction false} ClosedMeansUnused(hs: seq<Handle>, blk: nat, k: nat, i: nat)
    requires i <= |hs| && forall j :: 0 <= j < |hs| ==> hs[j].usageCount == 0
    ensures UsageFrom(hs, blk, k, i) == 0
    decreases |hs| - i
  {
    if i == |hs| {
    } else {
      ClosedMeansUnused(hs, blk, k, i + 1);
    }
  }

  ghost predicate NoneOpen(g: Fs)
    reads g.handles
  {
    forall j :: 0 <= j < |g.handles| ==> g.handles[j].usageCount == 0
  }

  /** Without open files no name is busy. */
  lemma NobodyBusy(g: Fs)
    requires NoneOpen(g) && FilesOk(g.disk, g.sh)
    ensures SpaceOf(g).busy == {}
  {
    hide UsageFrom;
    forall n | n in CurSlots(g) ensures OpenCount(g, n) == 0 {
      if CurSlots(g)[n].i < |CurChain(g)| {
        ClosedMeansUnused(g.handles, CurChain(g)[CurSlots(g)[n].i], CurSlots(g)[n].k, 0);
      }
    }
  }

  lemma BusyName(g: Fs, n: Name)
    ensures n in BusyNames(g) <==> OpenCount(g, n) > 0
  {
    hide UsageFrom;
  }

  lemma SoundVolume(g: Fs)
    requires Inv(g)
    ensures FilesOk(g.disk, g.sh) && Sound(SpaceOf(g))
  {
    hide Wf, TreeOf, FilesOf, FilesOk, SlotCost, BusyNames, FreeBlocks;
    WfFilesOk(g.disk, g.marked, g.sh, {}, Nothing);
    SoundTree(g);
    FileHeads(g.disk, g.sh);
    SoundCost(g);
    NoChainZero(g.disk, g.marked, g.sh);
    NoFileZero(g.disk, g.sh);
    AroundIsHere(g);
  }

  lemma SoundTree(g: Fs)
    requires Inv(g)
    ensures var T := Dirs(g);
      && (forall e, f :: Points(T, e) && Points(T, f) && Target(T, e) == Target(T, f) ==> e == f)
      && (forall e :: Points(T, e) ==> (T[e.dir][e.name].typ == Dir <==> Target(T, e) in T))
      && (forall e :: Points(T, e) && T[e.dir][e.name].typ == File ==>
           Target(T, e) in g.sh.chains && Target(T, e) !in g.sh.slots)
  {
    hide OwnOk, DirsOk, FilesOk, DepthOk, MarksOk, BitmapsOn, TreeOf;
    TreeKeys(g.disk, g.sh);
    var T: Listings := Dirs(g);
    forall e | Points(T, e)
      ensures Target(T, e) in g.sh.up && g.sh.up[Target(T, e)] == e
      ensures T[e.dir][e.name].typ == Dir <==> Target(T, e) in T
      ensures T[e.dir][e.name].typ == File ==> Target(T, e) in g.sh.chains
    {
      assert ItemOk(T[e.dir][e.name], e, T.Keys, g.sh.chains.Keys, g.sh.up);
    }
  }

  lemma FileHeads(disk: seq<Block>, sh: Shape)
    requires FilesOk(disk, sh)
    ensures forall x :: x in sh.chains && x !in sh.slots ==> x in FilesOf(disk, sh)
  {
  }

  /** A new entry costs at most one block, and that only in a directory that fills its blocks. */
  lemma SoundCost(g: Fs)
    requires Inv(g)
    ensures SlotCost(g) <= 1 && (SlotCost(g) == 1 ==> Here(g) != map[] && |Here(g)| % DIR_ITEMS == 0)
  {
    hide Wf, TreeOf, Lists, Index, Packed, DirChain, HasFree;
    CurDir(g, {}, Nothing);
    HereLive(g, {}, Nothing);
    var L: seq<seq<Item>> := Lists(g.disk, CurChain(g));
    if !HasFree(L) {
      ListsSized(g.disk, CurChain(g), CurParent(g));
      FullDirectory(L, CurSlots(g));
      assert |L| == |CurChain(g)| by { ListsLength(g.disk, CurChain(g)); }
      assert |Here(g)| == |Here(g).Keys| == DIR_ITEMS * |L|;
    }
  }

  lemma AroundIsHere(g: Fs)
    requires FilesOk(g.disk, g.sh)
    ensures Around(SpaceOf(g)) == Here(g)
  {
    hide FilesOk, TreeOf, FilesOf;
  }

  // ----- each operation -----

  /** tfs_create_dir, in the abstract. */
  method StepCreate(g: Fs, name: CString)
    requires Inv(g)
    modifies g`disk, g`marked, g`sh, g`err, g`loadedBitmapBlk, g`buf, g`loadedDirBlk, g.bitmap
    ensures Inv(g) && FilesOk(g.disk, g.sh)
    ensures old(g.err) != NoDev ==> g.err != NoDev && CreatesDir(old(SpaceOf(g)), name, SpaceOf(g))
    ensures Kept(old(g.sh), g.sh, {Entry(g.currentDirBlk, Stored(name))}, {})
    ensures g.err in {NoName, FileExist} ==> Kept(old(g.sh), g.sh, {}, {})
  {
    hide Wf, FilesOk, TreeOf, FilesOf, PutEntry, Stored, BitmapsOn, SlotCost, BusyNames, FreeBlocks, Kept;
    FilesOkNow(g);
    InDirs(g);
    ghost var s := SpaceOf(g);
    AroundIsHere(g);
    ghost var x := CreateDir(g, name);
    WfFilesOk(g.disk, g.marked, g.sh, {}, Nothing);
    assert s.err != NoDev && g.err == None ==> MadeDir(s, SpaceOf(g), Stored(name), x);
  }

  /** The number of blocks of a file. */
  lemma BlocksOfFile(g: Fs, n: Name)
    requires Inv(g) && FilesOk(g.disk, g.sh) && n in Here(g) && Here(g)[n].typ == File
    ensures |FileChain(g.sh, Here(g)[n].blk)| == BlocksOf(SpaceOf(g), Here(g)[n].blk)
  {
    hide Wf, TreeOf, FilesOf, FilesOk, Flat, DataChain, SlotCost, BusyNames, FreeBlocks;
    var x := Here(g)[n].blk;
    InDirs(g);
    FileAt(g.disk, g.marked, g.sh, Entry(g.currentDirBlk, n));
    NoChainZero(g.disk, g.marked, g.sh);
    NoFileZero(g.disk, g.sh);
    if x != 0 {
      assert |Flat(g.disk, g.sh.chains[x])| == DATA_LEN * |g.sh.chains[x]|;
    }
  }

  lemma NoFileZero(disk: seq<Block>, sh: Shape)
    requires FilesOk(disk, sh) && 0 !in sh.chains
    ensures 0 !in FilesOf(disk, sh)
  {
  }

  /** What a write of tfs_write_file can get, in the abstract. */
  lemma RoomIs(g: Fs, n: Name, len: nat)
    requires Inv(g) && FilesOk(g.disk, g.sh)
    ensures var s := SpaceOf(g);
      && (NoSlot(g, n) <==> NoRoom(s, n)) && BlkOf(g, n) == HeadAt(s, n) && (NoRoom(s, n) ==> RoomAt(s, n) == 0)
      && (n in Here(g) ==> ItemOf(g, n) == Here(g)[n] && Here(g)[n].typ != Free)
      && (n !in Here(g) ==> ItemOf(g, n).typ == Free)
      && (n !in Here(g) || Here(g)[n].typ == File ==>
            Granted(g, n, len) == Min(BlocksFor(len), RoomAt(s, n)) && Room(g, n) == RoomAt(s, n))
  {
    hide Holding, TreeOf, FilesOf, FilesOk, SlotCost, BusyNames, FreeBlocks, BlocksFor;
    AroundIsHere(g);
    RoomFacts(g, n, len);
    HereLive(g, {}, Nothing);
    if n in Here(g) && Here(g)[n].typ == File { BlocksOfFile(g, n); }
  }

  /** tfs_write_file, in the abstract. */
  method StepWrite(g: Fs, name: CString, data: seq<bv8>, overwrite: bool)
    requires Inv(g) && |data| < LIMIT
    modifies g`disk, g`marked, g`sh, g`err, g`loadedBitmapBlk, g`buf, g`loadedDirBlk, g.bitmap
    ensures Inv(g) && FilesOk(g.disk, g.sh)
    ensures old(g.err) != NoDev ==> g.err != NoDev && WritesFile(old(SpaceOf(g)), name, data, overwrite, SpaceOf(g))
    ensures Kept(old(g.sh), g.sh, {Entry(g.currentDirBlk, Stored(name))}, {HeadAt(old(SpaceOf(g)), Stored(name))})
    ensures g.err in {NoName, FileExist, FileBusy} ==> Kept(old(g.sh), g.sh, {}, {})
  {
    hide Holding, FilesOk, TreeOf, FilesOf, PutEntry, Stored, FilesAfter, OpenCount, BlocksFor, SlotCost, FreeBlocks,
      BusyNames, NoSlot, NoRoom, Room, RoomAt, Granted, BlkOf, HeadAt, ItemOf, Here, Around, Kept;
    FilesOkNow(g);
    InDirs(g);
    AroundIsHere(g);
    BusyName(g, Stored(name));
    RoomIs(g, Stored(name), |data|);
    ghost var s := SpaceOf(g);
    ghost var c := WriteFile(g, name, data, overwrite);
    FilesOkNow(g);
    if s.err != NoDev {
      WrittenAs(s, name, data, overwrite, SpaceOf(g), c);
    }
  }

  lemma WrittenAs(s: Space, name: CString, data: seq<bv8>, overwrite: bool, s': Space, c: seq<nat>)
    requires s'.at == s.at
    requires s'.err == NoName <==> name == ""
    requires name != "" ==>
      var n := Stored(name); var known, file := n in Around(s), n in Around(s) && Around(s)[n].typ == File;
      && (s'.err == FileExist <==> known && !(overwrite && file))
      && (s'.err == FileBusy <==> file && overwrite && n in s.busy)
    requires s'.err == DiskFull ==> s'.free == 0
    requires s'.err in {NoName, FileExist, FileBusy} ==> Unchanged(s, s')
    requires s'.err == DiskFull && c == [] ==> s'.dirs == s.dirs && s'.files == s.files
    requires s'.err !in {NoName, FileExist, FileBusy} ==> var n := Stored(name);
      && |c| == (if NoRoom(s, n) then 0 else Min(BlocksFor(|data|), RoomAt(s, n)))
      && (NoRoom(s, n) || s'.free + |c| == RoomAt(s, n))
      && s'.err == if |c| < BlocksFor(|data|) || NoRoom(s, n) then DiskFull else None
    requires s'.err !in {NoName, FileExist, FileBusy} && (s'.err == None || c != []) ==> var n := Stored(name);
      && s.at in s.dirs && s'.dirs == PutEntry(s.dirs, Entry(s.at, n), Item(File, HeadOf(c), |data|, n))
      && FilesAfter(s.files - {HeadAt(s, n)}, s'.files, c, data)
    ensures WritesFile(s, name, data, overwrite, s')
  {
    hide PutEntry, Stored, FilesAfter, BlocksFor, HeadAt;
    var n := Stored(name);
    if s'.err !in {NoName, FileExist, FileBusy} && (s'.err == None || c != []) {
      assert Wrote(s, s', n, data, c);
    }
  }

  /** tfs_touch, in the abstract. */
  method StepTouch(g: Fs, name: CString)
    requires Inv(g)
    modifies g`disk, g`marked, g`sh, g`err, g`loadedBitmapBlk, g`buf, g`loadedDirBlk, g.bitmap
    ensures Inv(g) && FilesOk(g.disk, g.sh)
    ensures old(g.err) != NoDev ==> g.err != NoDev && Touches(old(SpaceOf(g)), name, SpaceOf(g))
    ensures Kept(old(g.sh), g.sh, {Entry(g.currentDirBlk, Stored(name))}, {})
    ensures g.err == NoName || Stored(name) in old(Here(g)) ==> Kept(old(g.sh), g.sh, {}, {})
  {
    hide Holding, FilesOk, TreeOf, FilesOf, PutEntry, Stored, SlotCost, BusyNames, FreeBlocks, Kept;
    FilesOkNow(g);
    AroundIsHere(g);
    Touch(g, name);
    FilesOkNow(g);
  }

  /** tfs_delete, in the abstract. */
  method StepDelete(g: Fs, name: CString, typ: ItemType)
    requires Inv(g)
    modifies g`disk, g`marked, g`sh, g`err, g`loadedBitmapBlk, g`buf, g`loadedDirBlk, g.bitmap
    ensures Inv(g) && FilesOk(g.disk, g.sh)
    ensures old(g.err) != NoDev ==> g.err != NoDev && Deletes(old(SpaceOf(g)), name, typ, SpaceOf(g))
  {
    hide Holding, FilesOk, TreeOf, FilesOf, DropEntry, Stored, OpenCount, EntryGone, UnlinkedBlock, Elems, Here, Around,
      Deletes, SlotCost, BusyNames, FreeBlocks, FileChain, BlocksOf;
    FilesOkNow(g);
    InDirs(g);
    BusyName(g, Stored(name));
    ghost var s := SpaceOf(g);
    AroundIsHere(g);
    FreedCount(g, Stored(name));
    DeleteEntry(g, name, typ);
    FilesOkNow(g);
    if s.err != NoDev {
      DeletedAs(s, name, typ, SpaceOf(g));
    }
  }

  /** How many blocks a deletion makes free. */
  lemma FreedCount(g: Fs, n: Name)
    requires Inv(g) && FilesOk(g.disk, g.sh)
    ensures n in Here(g) ==> var it := Here(g)[n];
      var free := |FreeBlocks(g) + Elems(FileChain(g.sh, it.blk)) + UnlinkedBlock(g, n)|;
      && (it.typ != Dir ==>
            var n := |FreeBlocks(g)| + BlocksOf(SpaceOf(g), it.blk); n <= free <= n + 1)
      && (it.typ == Dir && it.blk in Dirs(g) && Dirs(g)[it.blk] == map[] ==>
            |FreeBlocks(g)| + 1 <= free <= |FreeBlocks(g)| + 2)
  {
    hide Wf, TreeOf, FilesOf, FilesOk, SlotCost, BusyNames, FileChain, FreeBlocks, UnlinkedBlock, Elems, BlocksOf;
    if n in Here(g) {
      HereLive(g, {}, Nothing);
      var it := Here(g)[n];
      if it.typ == File {
        BlocksOfFile(g, n);
        FileBlocksApart(g, n);
        AddUp(FreeBlocks(g), Elems(FileChain(g.sh, it.blk)), UnlinkedBlock(g, n));
      } else if it.blk in Dirs(g) && Dirs(g)[it.blk] == map[] {
        DirBlockApart(g, n);
        AddUp(FreeBlocks(g), Elems(FileChain(g.sh, it.blk)), UnlinkedBlock(g, n));
      }
    }
  }

  lemma AddUp(a: set<nat>, b: set<nat>, c: set<nat>)
    requires a !! b && a + b !! c && |c| <= 1
    ensures |a| + |b| <= |a + b + c| <= |a| + |b| + 1
  {
  }

  /** The block of the current directory that goes is neither free nor in a chain with another head. */
  lemma UnlinkedApart(g: Fs, n: Name, x: nat)
    requires Inv(g) && x != g.currentDirBlk && Elems(FileChain(g.sh, x)) <= g.marked
    ensures FreeBlocks(g) !! Elems(FileChain(g.sh, x))
    ensures FreeBlocks(g) + Elems(FileChain(g.sh, x)) !! UnlinkedBlock(g, n)
    ensures |UnlinkedBlock(g, n)| <= 1
  {
    hide DirsOk, FilesOk, RefsOk, DepthOk, TreeOf, BitmapsOn, Dropped, Unlinked;
    UnlinkedInUse(g, n);
    CurDir(g, {}, Nothing);
    DirDistinct(g.disk, CurChain(g), CurParent(g));
    if EmptiesBlock(g, n) && CurSlots(g)[n].i < |CurChain(g)| {
      UnlinkedElems(CurChain(g), CurSlots(g)[n].i);
      assert ChainOwned(g.sh, g.currentDirBlk);
      if x in g.sh.chains { assert ChainOwned(g.sh, x); }
    }
  }

  lemma FileBlocksApart(g: Fs, n: Name)
    requires Inv(g) && n in Here(g) && Here(g)[n].typ == File
    ensures var c := FileChain(g.sh, Here(g)[n].blk);
      && FreeBlocks(g) !! Elems(c) && FreeBlocks(g) + Elems(c) !! UnlinkedBlock(g, n)
      && |UnlinkedBlock(g, n)| <= 1 && |Elems(c)| == |c|
  {
    hide Wf, TreeOf, FilesOf, FreeBlocks, UnlinkedBlock, Elems, DataChain;
    var x := Here(g)[n].blk;
    InDirs(g);
    FileAt(g.disk, g.marked, g.sh, Entry(g.currentDirBlk, n));
    NoChainZero(g.disk, g.marked, g.sh);
    FileChainInUse(g, x);
    UnlinkedApart(g, n, x);
    if x != 0 { DataDistinct(g.disk, g.sh.chains[x]); }
    DistinctCard(FileChain(g.sh, x));
  }

  lemma DirBlockApart(g: Fs, n: Name)
    requires Inv(g) && n in Here(g) && Here(g)[n].typ == Dir
    requires Here(g)[n].blk in Dirs(g) && Dirs(g)[Here(g)[n].blk] == map[]
    ensures var c := FileChain(g.sh, Here(g)[n].blk);
      && FreeBlocks(g) !! Elems(c) && FreeBlocks(g) + Elems(c) !! UnlinkedBlock(g, n)
      && |UnlinkedBlock(g, n)| <= 1 && |Elems(c)| == 1
  {
    hide OwnOk, DirsOk, FilesOk, DepthOk, MarksOk, TreeOf, FilesOf, FreeBlocks, UnlinkedBlock, BitmapsOn;
    var x := Here(g)[n].blk;
    InDirs(g);
    TreeKeys(g.disk, g.sh);
    RefsDetachDir(Dirs(g), g.sh.chains.Keys, g.sh.up, Entry(g.currentDirBlk, n));
    EmptyDirIsHead(g.disk, g.sh, x);
    FreshFacts(g, {}, Nothing);
    HeadsOwned(g.sh);
    UnlinkedApart(g, n, x);
  }

  lemma DeletedAs(s: Space, name: CString, typ: ItemType, s': Space)
    requires s.at in s.dirs && s'.at == s.at
    requires s'.err == NoName <==> name == ""
    requires name != "" ==>
      (s'.err == NotExist <==> !(Stored(name) in Around(s) && typ in {Free, Around(s)[Stored(name)].typ}))
    requires name != "" && s'.err != NotExist ==> (s'.err == FileBusy <==> Stored(name) in s.busy)
    requires name != "" && s'.err != NotExist && s'.err != FileBusy ==>
      var it := Around(s)[Stored(name)];
      && (it.typ == Dir ==> it.blk in s.dirs)
      && s'.err == (if it.typ == Dir && s.dirs[it.blk] != map[] then NotEmpty else None)
    requires s'.err != None ==> Unchanged(s, s')
    requires s'.err == None ==> Stored(name) in Around(s)
    requires s'.err == None ==>
      var it, e := Around(s)[Stored(name)], Entry(s.at, Stored(name));
      && s'.dirs == (if it.typ == Dir then DropEntry(s.dirs, e) - {it.blk} else DropEntry(s.dirs, e))
      && s'.files == (if it.typ == Dir then s.files else s.files - {it.blk})
    requires s'.err == None ==>
      var it := Around(s)[Stored(name)];
      && (it.typ == Dir ==> s.free + 1 <= s'.free <= s.free + 2)
      && (it.typ != Dir ==> s.free + BlocksOf(s, it.blk) <= s'.free <= s.free + BlocksOf(s, it.blk) + 1)
    ensures Deletes(s, name, typ, s')
  {
    hide DropEntry, Stored, BlocksOf;
  }

  /** tfs_rename, in the abstract. */
  method StepRename(g: Fs, from: CString, to: CString)
    requires Inv(g)
    modifies g`disk, g`marked, g`sh, g`err, g`loadedBitmapBlk, g`buf, g`loadedDirBlk, g.bitmap
    ensures Inv(g) && FilesOk(g.disk, g.sh)
    ensures old(g.err) != NoDev ==> g.err != NoDev && Renames(old(SpaceOf(g)), from, to, SpaceOf(g))
    ensures g.err != None ==> g.sh == old(g.sh)
    ensures g.err == None ==>
      && Stored(from) in old(CurSlots(g)) && Stored(to) in CurSlots(g)
      && CurSlots(g)[Stored(to)] == old(CurSlots(g))[Stored(from)] && CurChain(g) == old(CurChain(g))
      && Kept(old(g.sh), g.sh, {Entry(g.currentDirBlk, Stored(from))}, {})
  {
    hide Holding, FilesOk, TreeOf, FilesOf, DropEntry, PutEntry, Stored, SlotCost, BusyNames, FreeBlocks, Kept;
    FilesOkNow(g);
    AroundIsHere(g);
    InDirs(g);
    Rename(g, from, to);
    FilesOkNow(g);
  }

  /** tfs_change_dir and tfs_change_dir_parent, in the abstract. */
  method StepEnter(g: Fs, name: CString)
    requires Inv(g)
    modifies g`err, g`currentDirBlk, g`disk, g`marked, g`sh, g`loadedBitmapBlk, g`buf, g`loadedDirBlk, g.bitmap
    ensures Inv(g) && FilesOk(g.disk, g.sh)
    ensures old(g.err) != NoDev ==> g.err != NoDev && Enters(old(SpaceOf(g)), name, SpaceOf(g))
    ensures g.disk == old(g.disk) && g.sh == old(g.sh) && g.marked == old(g.marked)
  {
    hide Holding, FilesOk, TreeOf, FilesOf, Stored, SlotCost, BusyNames, FreeBlocks;
    FilesOkNow(g);
    AroundIsHere(g);
    ChangeDir(g, name);
  }

  method StepLeave(g: Fs)
    requires Inv(g)
    modifies g`err, g`currentDirBlk, g`buf
    ensures Inv(g) && FilesOk(g.disk, g.sh)
    ensures old(g.err) != NoDev ==> g.err != NoDev && Leaves(old(SpaceOf(g)), SpaceOf(g))
  {
    hide Holding, FilesOk, TreeOf, FilesOf, ParentOf, Contains, SlotCost, BusyNames, FreeBlocks;
    FilesOkNow(g);
    ParentContains(g);
    ChangeDirParent(g);
  }

  lemma ParentContains(g: Fs)
    requires Inv(g)
    ensures g.currentDirBlk != ROOT ==> Contains(Dirs(g), ParentOf(g.sh.up, g.currentDirBlk), g.currentDirBlk)
  {
    hide OwnOk, FilesOk, DepthOk, MarksOk, BitmapsOn, TreeOf;
    TreeKeys(g.disk, g.sh);
    var x := g.currentDirBlk;
    if x != ROOT {
      assert RefAt(Dirs(g), g.sh.up, Nothing, x);
    }
  }

  /** travel_path, in the abstract. */
  method StepWalk(g: Fs, path: CString)
    requires Inv(g)
    modifies g`err, g`currentDirBlk, g`disk, g`marked, g`sh, g`loadedBitmapBlk, g`buf, g`loadedDirBlk, g.bitmap
    ensures Inv(g) && FilesOk(g.disk, g.sh)
    ensures old(g.err) != NoDev ==> g.err != NoDev && Travels(old(SpaceOf(g)), path, SpaceOf(g))
    ensures g.disk == old(g.disk) && g.sh == old(g.sh) && g.marked == old(g.marked)
  {
    hide Holding, FilesOk, TreeOf, FilesOf, Resolve, FirstName, SlotCost, BusyNames, FreeBlocks;
    FilesOkNow(g);
    var ok, rest;
    ghost var starts, trail;
    ok, rest, starts, trail := TravelPath(g, path);
  }

  /** One operation of a run. */
  method Step(g: Fs, op: Op)
    requires Inv(g) && (op.WriteFileOp? ==> |op.data| < LIMIT)
    modifies g`disk, g`marked, g`sh, g`err, g`loadedBitmapBlk, g`buf, g`loadedDirBlk, g`currentDirBlk, g.bitmap
    ensures Inv(g) && FilesOk(g.disk, g.sh)
    ensures old(g.err) != NoDev ==> g.err != NoDev && Steps(old(SpaceOf(g)), op, SpaceOf(g))
  {
    hide Holding, FilesOk, TreeOf, FilesOf, CreatesDir, WritesFile, Touches, Deletes, Renames, Enters, Leaves, Travels,
      SlotCost, BusyNames, FreeBlocks;
    FilesOkNow(g);
    match op {
      case CreateDirOp(name) =>
        StepCreate(g, name);
      case WriteFileOp(name, data, overwrite) =>
        StepWrite(g, name, data, overwrite);
      case TouchOp(name) =>
        StepTouch(g, name);
      case DeleteOp(name, typ) =>
        StepDelete(g, name, typ);
      case RenameOp(from, to) =>
        StepRename(g, from, to);
      case ChangeDirOp(name) =>
        StepEnter(g, name);
      case ParentOp =>
        StepLeave(g);
      case RootOp =>
        ChangeDirRoot(g);
      case WalkOp(path) =>
        StepWalk(g, path);
    }
  }
}
