/** Whole files: tfs_write_file, tfs_read_file and tfs_touch. */
module FileOps {
  import opened Layout
  import opened Shapes
  import opened Volume
  import opened Allocator
  import opened Chains
  import opened Directory
  import opened Tree
  import opened Entries
  import opened Links
  import opened Mounted
  import opened Detaching
  import opened DirOps
  import opened Delete
  import opened Walks
  import opened Marks
  import opened EmptyRead

  /** Slot s can take the file item `it` of directory h: it is free and the name is new, or it
      holds the detached entry of that name. */
  ghost predicate CanPut(disk: seq<Block>, sh: Shape, skip: Detached, h: nat, s: Slot, n: Name)
    requires h in sh.slots && h in sh.chains
  {
    var L := Lists(disk, sh.chains[h]);
    && InRange(L, s)
    && if skip == Nothing then L[s.i][s.k].typ == Free && n !in sh.slots[h]
       else skip == Detach(Entry(h, n)) && n in sh.slots[h] && sh.slots[h][n] == s
  }

  /** A file item was stored in a slot; its entry is detached until its chain is attached. */
  lemma WfFilePut(disk: seq<Block>, disk': seq<Block>, marked: set<nat>, sh: Shape, pend: set<nat>, skip: Detached,
                  h: nat, s: Slot, it: Item)
    requires Wf(disk, marked, sh, pend, skip) && h in sh.slots && h in sh.chains
    requires it.typ == File && GoodName(it.name) && CanPut(disk, sh, skip, h, s, it.name)
    requires ItemWrittenAt(disk, disk', sh, h, s, it)
    ensures h in TreeOf(disk, sh)
    ensures var sh' := sh.(slots := sh.slots[h := sh.slots[h][it.name := s]]); var e := Entry(h, it.name);
      && Wf(disk', marked, sh', pend, Detach(e))
      && TreeOf(disk', sh') == PutEntry(TreeOf(disk, sh), e, it)
      && FilesOf(disk', sh') == FilesOf(disk, sh)
  {
    hide OwnOk, DirsOk, FilesOk, Lists, Listing, TreeOf, FilesOf, Index, Packed, DirChain, ItemWrittenAt,
      Distinct, Elems, RefsOk, DepthOk, MarksOk, Usable, ParentOf;
    var L: seq<seq<Item>> := Lists(disk, sh.chains[h]);
    var t, e := sh.slots[h], Entry(h, it.name);
    var sh' := sh.(slots := sh.slots[h := sh.slots[h][it.name := s]]);
    DirOf(disk, sh, h);
    ListingAt(L, t);
    if skip == Nothing {
      PutIndex(L, t, s, it);
    } else {
      UpdateIndex(L, t, it.name, it);
      assert t[it.name := s] == t;
    }
    ItemWritten(disk, disk', sh, h, s, it, t[it.name := s]);
    WrittenSize(disk, disk', sh, h, s, it);
    RefsPutFile(TreeOf(disk, sh), sh.chains.Keys, sh.up, skip, e, it);
    MarksSame(|disk|, marked, sh, sh', pend);
    assert sh'.slots.Keys == sh.slots.Keys;
  }

  /** The item called n of the current directory; a free one if there is none. */
  ghost function ItemOf(g: Fs, n: Name): Item
    reads g`disk, g`sh, g`currentDirBlk
  {
    if n in Here(g) then Here(g)[n] else FreeItem()
  }

  // ----- tfs_touch -----

  /** tfs_touch. */
  method Touch(g: Fs, name: CString)
    requires Inv(g)
    modifies g`disk, g`marked, g`sh, g`err, g`loadedBitmapBlk, g`buf, g`loadedDirBlk, g.bitmap
    ensures Inv(g) && Files(g) == old(Files(g))
    ensures old(g.err) == NoDev ==> g.err == NoDev && g.disk == old(g.disk) && g.sh == old(g.sh)
    ensures old(g.err) != NoDev ==> (g.err == NoName <==> name == "")
    ensures old(g.err) != NoDev && name != "" ==>
      g.err == if Stored(name) !in old(Here(g)) && |old(FreeBlocks(g))| < old(SlotCost(g)) then DiskFull else None
    ensures g.err == DiskFull ==> FreeBlocks(g) == {}
    ensures g.err == NoName ==> FreeBlocks(g) == old(FreeBlocks(g))
    ensures g.err == None ==>
      |FreeBlocks(g)| == |old(FreeBlocks(g))| - if Stored(name) in old(Here(g)) then 0 else old(SlotCost(g))
    ensures g.err != None || Stored(name) in old(Here(g)) ==> Dirs(g) == old(Dirs(g))
    ensures g.err == None && Stored(name) !in old(Here(g)) ==>
      && g.currentDirBlk in old(Dirs(g))
      && Dirs(g) == PutEntry(old(Dirs(g)), Entry(g.currentDirBlk, Stored(name)), Item(File, 0, 0, Stored(name)))
    ensures Kept(old(g.sh), g.sh, {Entry(g.currentDirBlk, Stored(name))}, {})
    ensures g.err == NoName || Stored(name) in old(Here(g)) ==> Kept(old(g.sh), g.sh, {}, {})
    // a new entry stands in the first free slot of the directory, an old one where it was
    ensures old(g.err) != NoDev && g.err == None ==>
      StoredAt(old(Lists(g.disk, CurChain(g))), old(CurSlots(g)), CurSlots(g), Stored(name))
  {
    hide Wf, OwnOk, DirsOk, FilesOk, RefsOk, DepthOk, MarksOk, Lists, Listing, TreeOf, FilesOf, Index, Packed,
      DirChain, SameOutside, Elems, Usable, BitmapsOn, MarkedOn, Distinct, HasFree, Canonical, Kept, Earliest,
      InRange;
    ghost var e, sh0 := Entry(g.currentDirBlk, Stored(name)), g.sh;
    KeptSelf(sh0, {e}, {});
    KeptSelf(sh0, {}, {});
    if g.err == NoDev {
      return;
    }
    g.err := None;
    HereLive(g, {}, Nothing);
    var item;
    ghost var s;
    item, s := FindSlot(g, name);
    KeptMore(sh0, g.sh, {}, {}, {e}, {});
    if g.err != None {
      return;
    }
    if g.buf.items[item.slot].typ != Free {
      return;
    }
    NewCanPut(g, s, Stored(name));
    CurDir(g, {}, Nothing);
    ghost var sh1 := g.sh;
    StoreFileItem(g, item.slot, s, name, 0, 0, {}, Nothing);
    AttachNothing(g, e);
    KeptTwice(sh0, sh1, g.sh, {}, {}, {e}, {}, {e}, {});
  }

  /** Writes the buffered directory block with item k turned into a file item. */
  method StoreFileItem(g: Fs, k: nat, ghost s: Slot, name: CString, blk: nat, size: nat, ghost pend: set<nat>,
                       ghost skip: Detached)
    requires Holding(g, pend, skip) && Buffered(g, s) && k == s.k && name != ""
    requires CanPut(g.disk, g.sh, skip, g.currentDirBlk, s, Stored(name))
    modifies g`disk, g`sh, g`buf
    ensures Holding(g, pend, Detach(Entry(g.currentDirBlk, Stored(name)))) && Files(g) == old(Files(g))
    ensures g.currentDirBlk in old(Dirs(g))
    ensures Dirs(g) == PutEntry(old(Dirs(g)), Entry(g.currentDirBlk, Stored(name)), Item(File, blk, size, Stored(name)))
    ensures g.sh.chains == old(g.sh.chains) && g.sh.own == old(g.sh.own)
    ensures Kept(old(g.sh), g.sh, {Entry(g.currentDirBlk, Stored(name))}, {})
    ensures Stored(name) in CurSlots(g) && CurSlots(g)[Stored(name)] == s
  {
    hide Wf, OwnOk, DirsOk, FilesOk, RefsOk, DepthOk, MarksOk, Lists, Listing, TreeOf, FilesOf, Index, CanPut, Packed,
      DirChain, SameOutside, Elems, Usable, BitmapsOn, MarkedOn, Distinct, HasFree, Canonical, Kept;
    ghost var disk0, sh0, h := g.disk, g.sh, g.currentDirBlk;
    CurDir(g, pend, skip);
    FreshFacts(g, pend, skip);
    BufferedUsable(g, pend, skip, s);
    g.buf := g.buf.(items := g.buf.items[k := Item(File, blk, size, Stored(name))]);
    g.WriteBlock(g.loadedDirBlk, g.buf);
    WfFilePut(disk0, g.disk, g.marked, sh0, pend, skip, h, s, Item(File, blk, size, Stored(name)));
    KeptSlot(sh0, h, Stored(name), s);
    g.sh := sh0.(slots := sh0.slots[h := sh0.slots[h][Stored(name) := s]]);
  }

  /** An entry without blocks needs no chain. */
  lemma AttachNothing(g: Fs, e: Entry)
    requires Holding(g, {}, Detach(e)) && HasFile(Dirs(g), e) && Dirs(g)[e.dir][e.name].blk == 0
    ensures Inv(g)
  {
    hide OwnOk, DirsOk, FilesOk, RefsOk, DepthOk, MarksOk, TreeOf, FilesOf;
    EmptyChain(g.disk);
    assert Elems([]) == {};
    AttachFile(g.disk, g.marked, g.sh, [], e);
  }

  // ----- tfs_write_file -----

  lemma KeptWithout(disk: seq<Block>, marked: set<nat>, sh: Shape, e: Entry)
    requires Wf(disk, marked, sh, {}, Nothing) && HasFile(TreeOf(disk, sh), e)
    ensures var x := TreeOf(disk, sh)[e.dir][e.name].blk; Kept(sh, Without(sh, x), {}, {x})
  {
    hide Wf, TreeOf, Kept, FilesOf, DataChain, Flat, WithoutChain;
    FileAt(disk, marked, sh, e);
    var x := TreeOf(disk, sh)[e.dir][e.name].blk;
    if x == 0 { KeptSelf(sh, {}, {x}); } else { KeptWithoutChain(sh, x); }
  }

  /** Overwriting: the blocks of the old file are freed and the directory block is read again. */
  method ReleaseOld(g: Fs, k: nat, ghost s: Slot, ghost n: Name)
    requires Inv(g) && Buffered(g, s) && k == s.k && n in CurSlots(g) && s == CurSlots(g)[n]
    requires n in Here(g) && Here(g)[n].typ == File && g.buf.items[k] == Here(g)[n]
    modifies g`disk, g`marked, g`sh, g`loadedBitmapBlk, g`buf, g.bitmap
    ensures Holding(g, {}, Detach(Entry(g.currentDirBlk, n))) && Buffered(g, s)
    ensures Dirs(g) == old(Dirs(g)) && Files(g) == old(Files(g)) - {old(Here(g))[n].blk}
    ensures CurSlots(g) == old(CurSlots(g))
    ensures var oldChain := FileChain(old(g.sh), old(Here(g))[n].blk);
      && FreeBlocks(g) == old(FreeBlocks(g)) + Elems(oldChain) && Elems(oldChain) !! old(FreeBlocks(g))
      && Distinct(oldChain) && HeadOf(oldChain) == old(Here(g))[n].blk
    ensures Kept(old(g.sh), g.sh, {}, {old(Here(g))[n].blk})
  {
    hide Wf, OwnOk, DirsOk, FilesOk, RefsOk, DepthOk, MarksOk, Lists, Listing, TreeOf, FilesOf, Index, Packed, Usable,
      BitmapsOn, MarkedOn, Distinct, DirChain, WithoutChain, DataAt, SameContents, Elems, Kept;
    ghost var e, pos := Entry(g.currentDirBlk, n), g.buf.items[k].blk;
    ghost var c := FileChain(g.sh, pos);
    CurDir(g, {}, Nothing);
    DetachFile(g.disk, g.marked, g.sh, e);
    DataDistinct(g.disk, c);
    KeptWithout(g.disk, g.marked, g.sh, e);
    g.sh := Without(g.sh, pos);
    ghost var disk1, marked1, buf1 := g.disk, g.marked, g.buf;
    FreshFacts(g, Elems(c), Detach(e));
    SuffixForward(g.disk, c, 0);
    assert c[0..] == c;
    FreeFileBlocks(g, g.buf.items[k].blk, c);
    WfReleased(disk1, g.disk, marked1, g.sh, Elems(c), Detach(e));
    DirSame(disk1, g.disk, marked1, g.sh, Elems(c), Detach(e), g.currentDirBlk, s);
    g.buf := g.ReadBlock(g.loadedDirBlk);
    FreedBlocks(g.blkCount, marked1, Elems(c));
    assert g.buf == buf1;
  }

  /** A directory block is not affected by changes of the bitmap. */
  lemma DirSame(disk: seq<Block>, disk': seq<Block>, marked: set<nat>, sh: Shape, pend: set<nat>, skip: Detached,
                h: nat, s: Slot)
    requires Wf(disk, marked, sh, pend, skip) && SameContents(disk, disk') && h in sh.slots && h in sh.chains
    requires s.i < |sh.chains[h]| && sh.chains[h][s.i] < |disk|
    ensures |disk'| == |disk| && disk'[sh.chains[h][s.i]] == disk[sh.chains[h][s.i]]
    ensures Lists(disk', sh.chains[h]) == Lists(disk, sh.chains[h])
  {
    DirOf(disk, sh, h);
    assert DirAt(disk, sh.chains[h], ParentOf(sh.up, h), s.i);
    FrameDirContents(disk, disk', sh.chains[h], ParentOf(sh.up, h));
  }

  /** Number of data blocks a file of len bytes takes. */
  function BlocksFor(len: nat): (r: nat)
    ensures len <= 504 * r && (r > 0 ==> 504 * (r - 1) < len)
  {
    (len + DATA_LEN - 1) / DATA_LEN
  }

  /** `bytes` are whole blocks that hold `data` as far as they reach. */
  ghost predicate Carries(bytes: seq<bv8>, blocks: nat, data: seq<bv8>)
  {
    && |bytes| == DATA_LEN * blocks
    && bytes[..Min(|data|, |bytes|)] == data[..Min(|data|, |bytes|)]
  }

  /** A file with the chain c came to the files `files`; it carries `data` as far as it reaches.
      The empty chain adds nothing. */
  ghost predicate FilesAfter(files: map<nat, seq<bv8>>, files': map<nat, seq<bv8>>, c: seq<nat>, data: seq<bv8>)
  {
    if c == [] then files' == files
    else
      && c[0] != 0 && c[0] !in files && c[0] in files'
      && Carries(files'[c[0]], |c|, data) && files' == files[c[0] := files'[c[0]]]
  }

  /** The new file begins with the data, all of it or what its blocks have room for; no other file
      is touched. */
  lemma FilesAfterMeans(files: map<nat, seq<bv8>>, files': map<nat, seq<bv8>>, c: seq<nat>, data: seq<bv8>)
    requires FilesAfter(files, files', c, data)
    ensures c == [] ==> files' == files
    ensures c != [] ==>
      && files'.Keys == files.Keys + {c[0]} && |files'[c[0]]| == 504 * |c|
      && (forall i :: 0 <= i < |data| && i < 504 * |c| ==> files'[c[0]][i] == data[i])
      && (forall x :: x in files ==> x != c[0] && files'[x] == files[x])
  {
    if c != [] {
      var bytes, n := files'[c[0]], Min(|data|, 504 * |c|);
      forall i | 0 <= i < n ensures bytes[i] == data[i] {
        assert bytes[..n][i] == data[..n][i];
      }
    }
  }

  /** The number of blocks a new chain gets is decided by the number of free blocks. */
  lemma ChainLength(n: nat, marked: set<nat>, marked': set<nat>, c: seq<nat>, len: nat, full: bool)
    requires Distinct(c) && marked' == marked + Elems(c) && Elems(c) !! marked && (forall b :: b in c ==> b < n)
    requires full ==> (forall b :: 0 <= b < n ==> b in marked') && DATA_LEN * |c| < len
    requires !full ==> DATA_LEN * (|c| - 1) < len <= DATA_LEN * |c|
    ensures var free := set b | 0 <= b < n && b !in marked;
      && |c| == Min(BlocksFor(len), |free|) && (full <==> |free| < BlocksFor(len))
    ensures |set b | 0 <= b < n && b !in marked'| + |c| == |set b | 0 <= b < n && b !in marked|
  {
    var free := set b | 0 <= b < n && b !in marked;
    var left := set b | 0 <= b < n && b !in marked';
    DistinctCard(c);
    assert free == Elems(c) + left && Elems(c) !! left;
    if full {
      assert left == {};
    }
  }

  /** The pending first block grew into a finished chain for the detached entry. */
  lemma WfChainWritten(disk: seq<Block>, disk': seq<Block>, marked: set<nat>, sh: Shape, c: seq<nat>, e: Entry)
    requires Wf(disk, marked, sh, {HeadOf(c)}, Detach(e)) && c != [] && DataChain(disk', c)
    requires SameOutside(disk, disk', Elems(c)) && (Elems(c) - {c[0]}) !! marked
    requires HasFile(TreeOf(disk, sh), e) && TreeOf(disk, sh)[e.dir][e.name].blk == c[0]
    ensures var sh' := WithChain(sh, c, e);
      && Wf(disk', marked + Elems(c), sh', {}, Nothing)
      && TreeOf(disk', sh') == TreeOf(disk, sh)
      && FilesOf(disk', sh') == FilesOf(disk, sh)[c[0] := Flat(disk', c)]
      && sh'.slots == sh.slots && (forall h :: h in sh.chains ==> h in sh'.chains && sh'.chains[h] == sh.chains[h])
      && c[0] !in sh.chains
  {
    hide OwnOk, DirsOk, FilesOk, RefsOk, DepthOk, MarksOk, TreeOf, FilesOf, Lists, WithChain, Flat, SameOutside;
    ChainInRange(disk', c);
    assert c[0] in c;
    var more := Elems(c) - {c[0]};
    assert {c[0]} + more == Elems(c);
    MarksSubset(|disk|, marked, sh, {c[0]});
    assert marked + more == marked + Elems(c);
    assert |disk'| == |disk| by { OutsideSize(disk, disk', Elems(c)); }
    WfPending(disk, disk', marked, sh, {c[0]}, more, Detach(e));
    AttachFile(disk', marked + Elems(c), sh, c, e);
  }

  lemma MarksSubset(n: nat, marked: set<nat>, sh: Shape, pend: set<nat>)
    requires MarksOk(n, marked, sh, pend)
    ensures pend <= marked
  {
  }

  lemma OutsideSize(a: seq<Block>, b: seq<Block>, s: set<nat>)
    requires SameOutside(a, b, s)
    ensures |a| == |b|
  {
  }

  /** Takes the first block of a file; it is pending until the chain is written. */
  method FirstBlock(g: Fs, ghost s: Slot, ghost skip: Detached) returns (pos: nat)
    requires Holding(g, {}, skip) && g.err == None && Buffered(g, s)
    modifies g`disk, g`marked, g`err, g`loadedBitmapBlk, g.bitmap
    ensures g.err == if old(FreeBlocks(g)) == {} then DiskFull else None
    ensures Dirs(g) == old(Dirs(g)) && FilesOk(g.disk, g.sh) && Files(g) == old(Files(g))
    ensures g.err == DiskFull ==> Holding(g, {}, skip) && FreeBlocks(g) == {}
    ensures g.err == None ==> Holding(g, {pos}, skip) && pos in old(FreeBlocks(g)) && pos != 0
    ensures g.err == None ==> Buffered(g, s) && FreeBlocks(g) == old(FreeBlocks(g)) - {pos}
    ensures Lists(g.disk, CurChain(g)) == old(Lists(g.disk, CurChain(g)))
  {
    hide Wf, OwnOk, DirsOk, RefsOk, DepthOk, MarksOk, Lists, Listing, TreeOf, FilesOf, Index,
      Packed, DirChain, Usable, BitmapsOn, MarkedOn, Distinct, HasFree, FilesOk, SameContents;
    FullMeansNoneFree(g);
    FreshFacts(g, {}, skip);
    WfFilesOk(g.disk, g.marked, g.sh, {}, skip);
    ghost var disk0, marked0 := g.disk, g.marked;
    pos := AllocBlock(g);
    if g.err == None {
      assert SameOutside(disk0, g.disk, {} + {pos}) by { SameOutsideAll(disk0, g.disk, {pos}); }
      WfPending(disk0, g.disk, marked0, g.sh, {}, {pos}, skip);
      assert {} + {pos} == {pos};
      DirSame(disk0, g.disk, marked0, g.sh, {}, skip, g.currentDirBlk, s);
      UsableNonZero(pos, g.blkCount);
      WfFilesOk(g.disk, g.marked, g.sh, {pos}, skip);
    }
  }

  lemma SameOutsideAll(a: seq<Block>, b: seq<Block>, s: set<nat>)
    requires SameContents(a, b)
    ensures SameOutside(a, b, s) && SameOutside(a, b, {} + s)
  {
  }

  lemma PendingNoHead(disk: seq<Block>, marked: set<nat>, sh: Shape, pend: set<nat>, skip: Detached, x: nat)
    requires Wf(disk, marked, sh, pend, skip) && x in pend
    ensures x !in sh.chains
  {
    hide DirsOk, FilesOk, RefsOk, DepthOk, TreeOf, OwnOk;
    HeadsOwned(sh);
  }

  /** Runs the block loop over a detached entry and attaches the chain it leaves. */
  method FillChain(g: Fs, pos: nat, data: seq<bv8>, ghost e: Entry) returns (ghost c: seq<nat>)
    requires Holding(g, {pos}, Detach(e)) && g.err == None && |data| > 0
    requires HasFile(Dirs(g), e) && Dirs(g)[e.dir][e.name].blk == pos != 0
    modifies g`disk, g`marked, g`sh, g`err, g`loadedBitmapBlk, g`buf, g.bitmap
    ensures Inv(g) && Dirs(g) == old(Dirs(g)) && c != [] && c[0] == pos
    ensures g.err == if |old(FreeBlocks(g))| + 1 < BlocksFor(|data|) then DiskFull else None
    ensures |c| == Min(BlocksFor(|data|), |old(FreeBlocks(g))| + 1) && |FreeBlocks(g)| + |c| == |old(FreeBlocks(g))| + 1
    ensures FilesAfter(old(Files(g)), Files(g), c, data)
    ensures Kept(old(g.sh), g.sh, {}, {})
    ensures CurSlots(g) == old(CurSlots(g))
  {
    hide Wf, OwnOk, DirsOk, RefsOk, DepthOk, MarksOk, Lists, Listing, TreeOf, FilesOf, Index, SameOutside, Packed,
      DirChain, Usable, BitmapsOn, MarkedOn, Distinct, HasFree, FilesOk, SameContents, Holds, WithChain, Carries,
      Kept;
    ghost var disk0, marked0, sh0 := g.disk, g.marked, g.sh;
    FreshFacts(g, {pos}, Detach(e));
    CurDir(g, {pos}, Detach(e));
    // what the buffer holds becomes data; only the links are set
    var stale := new bv8[DATA_LEN];
    g.buf := DataBlk(0, 0, stale[..]);
    c := WriteChain(g, pos, data);
    HoldsChain(g.disk, c, data);
    WfChainWritten(disk0, g.disk, marked0, sh0, c, e);
    WfFilesOk(disk0, marked0, sh0, {pos}, Detach(e));
    NoFileWithoutChain(disk0, sh0, pos);
    FilledLength(g.blkCount, marked0, g.marked, pos, c, |data|, g.err == DiskFull);
    PendingNoHead(disk0, marked0, sh0, {pos}, Detach(e), pos);
    KeptWithChain(sh0, c, e);
    g.sh := WithChain(sh0, c, e);
  }

  lemma NoFileWithoutChain(disk: seq<Block>, sh: Shape, x: nat)
    requires FilesOk(disk, sh) && x !in sh.chains
    ensures x !in FilesOf(disk, sh)
  {
  }

  lemma HoldsChain(disk: seq<Block>, c: seq<nat>, data: seq<bv8>)
    requires Holds(disk, c, data)
    ensures DataChain(disk, c) && Carries(Flat(disk, c), |c|, data)
    ensures Distinct(c) && forall b :: b in c ==> b < |disk|
  {
    ChainInRange(disk, c);
  }

  lemma FilledLength(n: nat, marked: set<nat>, marked': set<nat>, first: nat, c: seq<nat>, len: nat, full: bool)
    requires Distinct(c) && c != [] && c[0] == first && first in marked && marked' == marked + Elems(c)
    requires (Elems(c) - {first}) !! marked && (forall b :: b in c ==> b < n)
    requires full ==> (forall b :: 0 <= b < n ==> b in marked') && DATA_LEN * |c| < len
    requires !full ==> DATA_LEN * (|c| - 1) < len <= DATA_LEN * |c|
    ensures var free := set b | 0 <= b < n && b !in marked;
      && |c| == Min(BlocksFor(len), |free| + 1) && (full <==> |free| + 1 < BlocksFor(len))
    ensures |set b | 0 <= b < n && b !in marked'| + |c| == |set b | 0 <= b < n && b !in marked| + 1
  {
    var free := set b | 0 <= b < n && b !in marked;
    var before := marked - {first};
    assert first in Elems(c) && (set b | 0 <= b < n && b !in before) == free + {first};
    ChainLength(n, before, marked', c, len, full);
  }

  /** The contents half of tfs_write_file: first block, directory item, block loop. */
  method NewContents(g: Fs, k: nat, ghost s: Slot, name: CString, data: seq<bv8>, ghost skip: Detached)
      returns (ghost c: seq<nat>)
    requires Holding(g, {}, skip) && g.err == None && Buffered(g, s) && k == s.k && name != ""
    requires CanPut(g.disk, g.sh, skip, g.currentDirBlk, s, Stored(name))
    requires skip != Nothing ==> HasFile(Dirs(g), Entry(g.currentDirBlk, Stored(name)))
    requires skip != Nothing && Dirs(g)[g.currentDirBlk][Stored(name)].blk != 0 ==> FreeBlocks(g) != {}
    modifies g`disk, g`marked, g`sh, g`err, g`loadedBitmapBlk, g`buf, g.bitmap
    ensures Inv(g) && g.currentDirBlk in old(Dirs(g))
    ensures g.err == if |old(FreeBlocks(g))| < BlocksFor(|data|) then DiskFull else None
    ensures |c| == Min(BlocksFor(|data|), |old(FreeBlocks(g))|) && |FreeBlocks(g)| + |c| == |old(FreeBlocks(g))|
    ensures c == [] && g.err == DiskFull ==> Dirs(g) == old(Dirs(g))
    ensures c != [] || g.err == None ==>
      Dirs(g) == PutEntry(old(Dirs(g)), Entry(g.currentDirBlk, Stored(name)),
          Item(File, HeadOf(c), |data|, Stored(name)))
    ensures FilesAfter(old(Files(g)), Files(g), c, data)
    ensures Kept(old(g.sh), g.sh, {Entry(g.currentDirBlk, Stored(name))}, {})
    ensures c != [] || g.err == None ==> Stored(name) in CurSlots(g) && CurSlots(g)[Stored(name)] == s
  {
    hide Wf, OwnOk, DirsOk, FilesOk, RefsOk, DepthOk, MarksOk, Lists, Listing, TreeOf, FilesOf, Index, Packed,
      DirChain, Elems, Usable, BitmapsOn, MarkedOn, Distinct, HasFree, Canonical, SameContents, Carries, Kept;
    ghost var e := Entry(g.currentDirBlk, Stored(name));
    CurDir(g, {}, skip);
    c := [];
    ghost var sh0 := g.sh;
    KeptSelf(sh0, {e}, {});
    if |data| == 0 {
      StoreFileItem(g, k, s, name, 0, 0, {}, skip);
      AttachNothing(g, e);
      return;
    }
    var pos := FirstBlock(g, s, skip);
    if g.err != None {
      if skip != Nothing { AttachNothing(g, e); }
      return;
    }
    StoreFileItem(g, k, s, name, pos, |data|, {pos}, skip);
    ghost var sh1 := g.sh;
    c := FillChain(g, pos, data, e);
    KeptTwice(sh0, sh1, g.sh, {e}, {}, {}, {}, {e}, {});
  }

  /** Replacing an existing file: its blocks are freed first, so they count as available. */
  method Overwrite(g: Fs, k: nat, ghost s: Slot, name: CString, data: seq<bv8>) returns (ghost c: seq<nat>)
    requires Inv(g) && g.err == None && Buffered(g, s) && k == s.k && name != ""
    requires Stored(name) in CurSlots(g) && s == CurSlots(g)[Stored(name)]
    requires Stored(name) in Here(g) && Here(g)[Stored(name)].typ == File && g.buf.items[k] == Here(g)[Stored(name)]
    modifies g`disk, g`marked, g`sh, g`err, g`loadedBitmapBlk, g`buf, g.bitmap
    ensures Inv(g) && g.currentDirBlk in old(Dirs(g))
    ensures var it := old(Here(g))[Stored(name)];
      var avail := |old(FreeBlocks(g))| + |FileChain(old(g.sh), it.blk)|;
      && g.err == (if avail < BlocksFor(|data|) then DiskFull else None)
      && |c| == Min(BlocksFor(|data|), avail) && |FreeBlocks(g)| + |c| == avail
    ensures c == [] && g.err == DiskFull ==> Dirs(g) == old(Dirs(g)) && old(Here(g))[Stored(name)].blk == 0
    ensures c != [] || g.err == None ==>
      Dirs(g) == PutEntry(old(Dirs(g)), Entry(g.currentDirBlk, Stored(name)),
          Item(File, HeadOf(c), |data|, Stored(name)))
    ensures FilesAfter(old(Files(g)) - {old(Here(g))[Stored(name)].blk}, Files(g), c, data)
    ensures Kept(old(g.sh), g.sh, {Entry(g.currentDirBlk, Stored(name))}, {old(Here(g))[Stored(name)].blk})
    ensures c != [] || g.err == None ==> Stored(name) in CurSlots(g) && CurSlots(g)[Stored(name)] == s
  {
    hide Wf, OwnOk, DirsOk, FilesOk, RefsOk, DepthOk, MarksOk, Lists, Listing, TreeOf, FilesOf, Index, BlocksFor,
      Packed, DirChain, Elems, Usable, BitmapsOn, MarkedOn, Distinct, HasFree, Canonical, SameContents, Carries, Kept;
    ghost var n, free := Stored(name), FreeBlocks(g);
    ghost var oldChain := FileChain(g.sh, Here(g)[n].blk);
    CurDir(g, {}, Nothing);
    ghost var sh0, x, e := g.sh, Here(g)[n].blk, Entry(g.currentDirBlk, n);
    ReleaseOld(g, k, s, n);
    ghost var sh1 := g.sh;
    HeadInElems(oldChain, free);
    CurDir(g, {}, Detach(Entry(g.currentDirBlk, n)));
    assert CanPut(g.disk, g.sh, Detach(Entry(g.currentDirBlk, n)), g.currentDirBlk, s, n);
    c := NewContents(g, k, s, name, data, Detach(Entry(g.currentDirBlk, n)));
    KeptTwice(sh0, sh1, g.sh, {}, {x}, {e}, {}, {e}, {x});
  }

  lemma HeadInElems(c: seq<nat>, free: set<nat>)
    requires Distinct(c) && Elems(c) !! free
    ensures HeadOf(c) != 0 ==> HeadOf(c) in Elems(c)
    ensures |free + Elems(c)| == |free| + |c|
  {
    DistinctCard(c);
  }

  /** tfs_write_file where the name exists: only a closed file may be replaced, and only on request. */
  method WriteOver(g: Fs, k: nat, ghost s: Slot, name: CString, data: seq<bv8>, overwrite: bool)
      returns (ghost c: seq<nat>)
    requires Inv(g) && g.err == None && Buffered(g, s) && k == s.k && name != ""
    requires Stored(name) in CurSlots(g) && s == CurSlots(g)[Stored(name)]
    requires Stored(name) in Here(g) && g.buf.items[k] == Here(g)[Stored(name)]
    modifies g`disk, g`marked, g`sh, g`err, g`loadedBitmapBlk, g`buf, g.bitmap
    ensures Inv(g) && g.currentDirBlk in old(Dirs(g))
    ensures g.err == FileExist <==> !(overwrite && old(Here(g))[Stored(name)].typ == File)
    ensures g.err == FileBusy <==>
      overwrite && old(Here(g))[Stored(name)].typ == File && old(OpenCount(g, Stored(name))) > 0
    ensures g.err in {FileExist, FileBusy} || (c == [] && g.err == DiskFull) ==>
      Dirs(g) == old(Dirs(g)) && Files(g) == old(Files(g))
    ensures g.err !in {FileExist, FileBusy} ==>
      var avail := |old(FreeBlocks(g))| + |FileChain(old(g.sh), old(Here(g))[Stored(name)].blk)|;
      && g.err == (if avail < BlocksFor(|data|) then DiskFull else None)
      && |c| == Min(BlocksFor(|data|), avail) && |FreeBlocks(g)| + |c| == avail
      && FilesAfter(old(Files(g)) - {old(Here(g))[Stored(name)].blk}, Files(g), c, data)
    ensures g.err in {FileExist, FileBusy} ==> c == [] && FreeBlocks(g) == old(FreeBlocks(g))
    ensures c != [] || g.err == None ==>
      Dirs(g) == PutEntry(old(Dirs(g)), Entry(g.currentDirBlk, Stored(name)),
          Item(File, HeadOf(c), |data|, Stored(name)))
    ensures Kept(old(g.sh), g.sh, {Entry(g.currentDirBlk, Stored(name))}, {old(Here(g))[Stored(name)].blk})
    ensures g.err in {FileExist, FileBusy} ==> g.sh == old(g.sh)
    ensures g.err !in {FileExist, FileBusy} && (c != [] || g.err == None) ==>
      Stored(name) in CurSlots(g) && CurSlots(g)[Stored(name)] == s
  {
    hide Holding, Lists, TreeOf, FilesOf, FilesOk, OpenCount, UsageFrom, Stored, BlocksFor, Carries, FreeBlocks,
      FileChain, PutEntry, Kept;
    ZeroIsNoFile(g);
    InDirs(g);
    c := [];
    KeptSelf(g.sh, {Entry(g.currentDirBlk, Stored(name))}, {Here(g)[Stored(name)].blk});
    if !overwrite || g.buf.items[k].typ != File {
      g.err := FileExist;
      return;
    }
    CountOfBuffered(g, s, Stored(name));
    var count := ItemUsageCount(g, k);
    if count > 0 {
      g.err := FileBusy;
      return;
    }
    c := Overwrite(g, k, s, name, data);
  }

  /** tfs_write_file. It gives up before it changes a thing, or it writes as many blocks as it can get. */
  method WriteFile(g: Fs, name: CString, data: seq<bv8>, overwrite: bool) returns (ghost c: seq<nat>)
    requires Inv(g) && |data| < LIMIT
    modifies g`disk, g`marked, g`sh, g`err, g`loadedBitmapBlk, g`buf, g`loadedDirBlk, g.bitmap
    ensures FilesOk(old(g.disk), old(g.sh)) && FilesOk(g.disk, g.sh)
    ensures old(g.err) == NoDev ==> g.err == NoDev && g.disk == old(g.disk) && g.sh == old(g.sh)
    ensures old(g.err) != NoDev ==> (g.err == NoName <==> name == "")
    ensures old(g.err) != NoDev && name != "" ==> var typ := old(ItemOf(g, Stored(name))).typ;
      && (g.err == FileExist <==> typ != Free && !(overwrite && typ == File))
      && (g.err == FileBusy <==> typ == File && overwrite && old(OpenCount(g, Stored(name))) > 0)
    ensures g.err == DiskFull ==> FreeBlocks(g) == {}
    ensures g.err in {NoName, FileExist, FileBusy} ==> FreeBlocks(g) == old(FreeBlocks(g))
    ensures g.err in {NoName, FileExist, FileBusy} || (g.err == DiskFull && c == []) ==>
      Dirs(g) == old(Dirs(g)) && Files(g) == old(Files(g))
    // the write itself: as many blocks as the data needs, or as there are
    ensures old(g.err) != NoDev && g.err !in {NoName, FileExist, FileBusy} ==>
      && |c| == old(Granted(g, Stored(name), |data|))
      && (old(NoSlot(g, Stored(name))) || |FreeBlocks(g)| + |c| == old(Room(g, Stored(name))))
      && g.err == if |c| < BlocksFor(|data|) || old(NoSlot(g, Stored(name))) then DiskFull else None
    ensures old(g.err) != NoDev && (g.err == None || c != []) ==>
      && g.currentDirBlk in old(Dirs(g))
      && Dirs(g) == PutEntry(old(Dirs(g)), Entry(g.currentDirBlk, Stored(name)),
           Item(File, HeadOf(c), |data|, Stored(name)))
    ensures old(g.err) != NoDev && (g.err == None || c != []) ==>
      FilesAfter(old(Files(g)) - {old(BlkOf(g, Stored(name)))}, Files(g), c, data)
    ensures Kept(old(g.sh), g.sh, {Entry(g.currentDirBlk, Stored(name))}, {old(BlkOf(g, Stored(name)))})
    ensures g.err in {NoName, FileExist, FileBusy} ==> Kept(old(g.sh), g.sh, {}, {})
    // a new entry stands in the first free slot of the directory, an old one where it was
    ensures old(g.err) != NoDev && (g.err == None || c != []) ==>
      StoredAt(old(Lists(g.disk, CurChain(g))), old(CurSlots(g)), CurSlots(g), Stored(name))
    ensures Inv(g)
  {
    hide Holding, Buffered, Lists, TreeOf, FilesOf, FilesOk, OpenCount, UsageFrom, Stored, HasFree, FirstFree, CanPut,
      BlocksFor, Carries, FreeItem, PutEntry, Granted, Room, NoSlot, BlkOf, FreeBlocks, ItemOf, SlotCost, FileChain,
      Wf, Kept, Earliest, Dirs;
    c := [];
    FilesOkNow(g);
    ghost var sh0, e, x := g.sh, Entry(g.currentDirBlk, Stored(name)), BlkOf(g, Stored(name));
    KeptSelf(sh0, {e}, {x});
    if g.err == NoDev {
      return;
    }
    g.err := None;
    ZeroIsNoFile(g);
    HereLive(g, {}, Nothing);
    RoomFacts(g, Stored(name), |data|);
    var item;
    ghost var s;
    item, s := FindSlot(g, name);
    FilesOkNow(g);
    ghost var sh1 := g.sh;
    KeptMore(sh0, sh1, {}, {}, {e}, {x});
    if g.err != None {
      return;
    }
    BufferedSlot(g, s);
    if g.buf.items[item.slot].typ == Free {
      NewCanPut(g, s, Stored(name));
      c := NewContents(g, item.slot, s, name, data, Nothing);
      KeptTwice(sh0, sh1, g.sh, {}, {}, {e}, {}, {e}, {x});
      FilesOkNow(g);
      return;
    }
    c := WriteOver(g, item.slot, s, name, data, overwrite);
    FilesOkNow(g);
  }

  /** A free slot of the current directory can take an item with a new name. */
  lemma NewCanPut(g: Fs, s: Slot, n: Name)
    requires Inv(g) && Buffered(g, s) && g.buf.items[s.k].typ == Free && n !in Here(g)
    ensures CanPut(g.disk, g.sh, Nothing, g.currentDirBlk, s, n)
  {
    HereLive(g, {}, Nothing);
  }

  /** The head of the chain that the name stands for, or 0. */
  ghost function BlkOf(g: Fs, n: Name): nat
    reads g`disk, g`sh, g`currentDirBlk
  {
    if n in Here(g) then Here(g)[n].blk else 0
  }

  /** A new entry would need another directory block, and there is none. */
  ghost predicate NoSlot(g: Fs, n: Name)
    reads g`disk, g`sh, g`marked, g`currentDirBlk
  {
    n !in Here(g) && |FreeBlocks(g)| < SlotCost(g)
  }

  /** Blocks that a write under this name can use for data: the free blocks and those of the old
      file, less the one that a full directory takes for a new entry. */
  ghost function Room(g: Fs, n: Name): nat
    reads g`disk, g`sh, g`marked, g`currentDirBlk
  {
    if NoSlot(g, n) then 0
    else if n in Here(g) then |FreeBlocks(g)| + |FileChain(g.sh, Here(g)[n].blk)|
    else |FreeBlocks(g)| - SlotCost(g)
  }

  /** How many blocks a write of len bytes under this name gets: those it needs, or as many as
      there are. */
  ghost function Granted(g: Fs, n: Name, len: nat): nat
    reads g`disk, g`sh, g`marked, g`currentDirBlk
  {
    if NoSlot(g, n) then 0 else Min(BlocksFor(len), Room(g, n))
  }

  /** tfs_write_file can store len bytes under this name. */
  ghost predicate Storable(g: Fs, name: CString, len: nat, overwrite: bool)
    reads g`disk, g`sh, g`marked, g`currentDirBlk, g.handles
  {
    var n := Stored(name);
    && name != "" && !NoSlot(g, n) && Granted(g, n, len) == BlocksFor(len)
    && (ItemOf(g, n).typ == Free || (overwrite && ItemOf(g, n).typ == File && OpenCount(g, n) == 0))
  }

  lemma RoomFacts(g: Fs, n: Name, len: nat)
    ensures NoSlot(g, n) <==> n !in Here(g) && |FreeBlocks(g)| < SlotCost(g)
    ensures Granted(g, n, len) == if NoSlot(g, n) then 0 else Min(BlocksFor(len), Room(g, n))
    ensures n in Here(g) ==>
      && ItemOf(g, n) == Here(g)[n] && BlkOf(g, n) == Here(g)[n].blk
      && Room(g, n) == |FreeBlocks(g)| + |FileChain(g.sh, Here(g)[n].blk)|
    ensures n !in Here(g) ==> ItemOf(g, n).typ == Free && BlkOf(g, n) == 0
    ensures n !in Here(g) && !NoSlot(g, n) ==> Room(g, n) == |FreeBlocks(g)| - SlotCost(g)
  {
  }

  lemma ZeroIsNoFile(g: Fs)
    requires Inv(g)
    ensures Files(g) - {0} == Files(g)
  {
    NotAFile(g.disk, g.sh, 0);
  }

  // ----- tfs_read_file -----

  /** The bytes that tfs_read_file walks through for a block pointer x. A file without blocks is read
      along w, from block 0 on. */
  ghost function Body(g: Fs, x: nat, w: seq<nat>): seq<bv8>
    reads g`disk, g`sh
  {
    if x == 0 then (if Walk(g.disk, w) then WalkBytes(g.disk, w) else [])
    else if x in g.sh.chains && DataChain(g.disk, g.sh.chains[x]) then Flat(g.disk, g.sh.chains[x])
    else []
  }

  /** The walk for a block pointer x runs into the end of the drive. */
  ghost predicate Astray(g: Fs, x: nat, w: seq<nat>)
    reads g`disk
  {
    x == 0 && Walk(g.disk, w) && LastNext(g.disk, w) != 0
  }

  /** The first n bytes, or all of them. */
  function Prefix(bytes: seq<bv8>, n: nat): seq<bv8> { bytes[..Min(n, |bytes|)] }

  /** What the loop walks along for the file n, and the bytes it meets there. */
  lemma ReadAlong(g: Fs, n: Name, w: seq<nat>) returns (walk: seq<nat>)
    requires Inv(g) && IsFile(g, n) && (BlkOf(g, n) == 0 ==> WalkEnds(g.disk, w, 0))
    ensures WalkEnds(g.disk, walk, BlkOf(g, n)) && WalkBytes(g.disk, walk) == Body(g, BlkOf(g, n), w)
    ensures Astray(g, BlkOf(g, n), w) <==> LastNext(g.disk, walk) != 0
    ensures var x := BlkOf(g, n); x != 0 ==>
      x in Files(g) && Body(g, x, w) == Files(g)[x] && LastNext(g.disk, walk) == 0
    ensures BlkOf(g, n) == 0 ==> walk == w && var x := SumOfMarks(g.marked, 32, 32);
      && (x == 0 ==> w == [0])
      && (x >= g.blkCount ==> w == [0] && LastNext(g.disk, w) != 0)
      && (0 < x < g.blkCount ==> |w| > 1 && w[1] == x)
      && (x == 0 || x in g.sh.own ==> LastNext(g.disk, w) == 0)
  {
    hide Wf, TreeOf, FilesOf, Flat, DataChain, BitmapsOn, MarkedOn, NextWord, WalkBytes, SumOfMarks;
    InDirs(g);
    walk := w;
    if BlkOf(g, n) != 0 {
      FileAt(g.disk, g.marked, g.sh, Entry(g.currentDirBlk, n));
      walk := g.sh.chains[BlkOf(g, n)];
      ChainIsWalk(g.disk, walk);
    } else {
      EmptyReadSteps(g.disk, g.marked, g.sh, w);
    }
  }

  /** tfs_read_file. For a file without blocks the loop has to end: w is what it reads then (see
      EmptyReadCases and EndsUnlessRepeated). */
  method ReadFile(g: Fs, name: CString, maxLen: nat, ghost w: seq<nat>) returns (len: nat, out: seq<bv8>)
    requires Inv(g)
    requires IsFile(g, Stored(name)) && BlkOf(g, Stored(name)) == 0 ==> WalkEnds(g.disk, w, 0)
    modifies g`disk, g`marked, g`sh, g`err, g`loadedBitmapBlk, g`buf, g`loadedDirBlk, g.bitmap
    ensures Inv(g) && g.disk == old(g.disk) && g.sh == old(g.sh) && g.marked == old(g.marked)
    ensures old(g.err) == NoDev || name == "" || !old(IsFile(g, Stored(name))) ==> len == 0 && out == []
    ensures old(g.err) == NoDev ==> g.err == NoDev
    ensures old(g.err) != NoDev && name == "" ==> g.err == NoName
    ensures old(g.err) != NoDev && name != "" && !old(IsFile(g, Stored(name))) ==> g.err == NotExist
    ensures old(g.err) != NoDev && name != "" && old(IsFile(g, Stored(name))) ==>
      var it := old(ItemOf(g, Stored(name))); var bytes := Body(g, it.blk, w);
      && len == Min(it.size, maxLen) && out == Prefix(bytes, len)
      && g.err == if Astray(g, it.blk, w) then Io else if len <= |bytes| then None else UnexpEof
    // a file with blocks: its first bytes
    ensures old(g.err) != NoDev && name != "" && old(IsFile(g, Stored(name)) && BlkOf(g, Stored(name)) != 0) ==>
      var x := old(BlkOf(g, Stored(name)));
      && FilesOk(g.disk, g.sh) && x in Files(g) && |out| == Min(len, |Files(g)[x]|)
      && (forall i :: 0 <= i < |out| ==> out[i] == Files(g)[x][i])
      && g.err == if len <= |Files(g)[x]| then None else UnexpEof
    // a file without blocks: the marks of the blocks 32 to 63 tell where the loop goes from block 0
    ensures old(g.err) != NoDev && name != "" && old(IsFile(g, Stored(name)) && BlkOf(g, Stored(name)) == 0) ==>
      var x := SumOfMarks(g.marked, 32, 32);
      && (x == 0 ==> w == [0])
      && (x >= g.blkCount ==> w == [0] && g.err == Io)
      && (0 < x < g.blkCount ==> |w| > 1 && w[1] == x)
      && (x == 0 || x in g.sh.own ==> g.err != Io)
  {
    hide Wf, TreeOf, FilesOf, Lists, Stored, MarkedOn, BitmapsOn, Buffered, WalkBytes, LastNext, FilesOk, SumOfMarks,
      Body, Astray, WalkEnds;
    len, out := 0, [];
    if g.err == NoDev {
      return;
    }
    g.err := None;
    var item;
    ghost var s;
    item, s := LookUp(g, name, {}, Nothing);
    if g.err != None {
      return;
    }
    if item != Null { BufferedSlot(g, s); }
    if item == Null || g.buf.items[item.slot].typ != File {
      g.err := NotExist;
      return;
    }
    var pos := g.buf.items[item.slot].blk;
    len := g.buf.items[item.slot].size;
    if len > maxLen {
      len := maxLen;
    }
    InDirs(g);
    FilesOkNow(g);
    ghost var walk := ReadAlong(g, Stored(name), w);
    out := ReadBlocks(g, pos, len, walk);
  }

  /** The body of a file with blocks is its byte content. */
  lemma BodyIsContent(g: Fs, e: Entry)
    requires Inv(g) && HasFile(Dirs(g), e) && Dirs(g)[e.dir][e.name].blk != 0
    ensures var x := Dirs(g)[e.dir][e.name].blk; x in Files(g) && Body(g, x, []) == Files(g)[x]
  {
    hide OwnOk, DirsOk, FilesOk, RefsOk, DepthOk, MarksOk, TreeOf, FilesOf, Flat, DataChain;
    FileAt(g.disk, g.marked, g.sh, e);
  }

  /** The current directory has a file called n. */
  ghost predicate IsFile(g: Fs, n: Name)
    reads g`disk, g`sh, g`currentDirBlk
  {
    n in Here(g) && Here(g)[n].typ == File
  }

  /** A file entry with a block pointer leads to a data chain that starts there. */
  lemma FileAt(disk: seq<Block>, marked: set<nat>, sh: Shape, e: Entry)
    requires Wf(disk, marked, sh, {}, Nothing) && HasFile(TreeOf(disk, sh), e)
    ensures var x := TreeOf(disk, sh)[e.dir][e.name].blk; x != 0 ==>
      && x in sh.chains && x !in sh.slots && DataChain(disk, sh.chains[x]) && sh.chains[x] != [] && sh.chains[x][0] == x
      && x in FilesOf(disk, sh) && FilesOf(disk, sh)[x] == Flat(disk, sh.chains[x])
  {
    hide DirsOk, DepthOk, MarksOk, Lists, Listing, TreeOf, DataChain, Flat, Distinct;
    var T: Listings := TreeOf(disk, sh);
    assert ItemOk(T[e.dir][e.name], e, T.Keys, sh.chains.Keys, sh.up);
    TreeKeys(disk, sh);
    if T[e.dir][e.name].blk != 0 {
      assert ChainOwned(sh, T[e.dir][e.name].blk);
    }
  }

  /** tfs_write_file followed by tfs_read_file gives the data back, up to max_len. */
  method WriteThenRead(g: Fs, name: CString, data: seq<bv8>, overwrite: bool, maxLen: nat)
      returns (stored: bool, len: nat, out: seq<bv8>)
    requires Inv(g) && 0 < |data| < LIMIT && g.err != NoDev
    modifies g`disk, g`marked, g`sh, g`err, g`loadedBitmapBlk, g`buf, g`loadedDirBlk, g.bitmap
    ensures Inv(g) && (stored <==> old(Storable(g, name, |data|, overwrite)))
    ensures stored ==> g.err == None && len == Min(|data|, maxLen) && out == data[..len]
  {
    hide Holding, TreeOf, FilesOf, FilesOk, Stored, Carries, Body;
    len, out := 0, [];
    ghost var c := WriteFile(g, name, data, overwrite);
    stored := g.err == None;
    if stored {
      StoredFile(g, Stored(name), c, data);
      len, out := ReadFile(g, name, maxLen, []);
    }
  }

  /** The file that a successful tfs_write_file leaves, as tfs_read_file sees it. */
  lemma StoredFile(g: Fs, n: Name, c: seq<nat>, data: seq<bv8>)
    requires Inv(g) && c != [] && c[0] != 0 && c[0] in Files(g) && Carries(Files(g)[c[0]], |c|, data)
    requires g.currentDirBlk in Dirs(g) && n in Dirs(g)[g.currentDirBlk]
    requires Dirs(g)[g.currentDirBlk][n] == Item(File, c[0], |data|, n) && |data| <= DATA_LEN * |c|
    ensures IsFile(g, n) && Here(g)[n] == Item(File, c[0], |data|, n) && BlkOf(g, n) == c[0]
    ensures |data| <= |Body(g, c[0], [])| && Body(g, c[0], [])[..|data|] == data
  {
    hide Wf, TreeOf, FilesOf, Body, Flat, DataChain;
    BodyIsContent(g, Entry(g.currentDirBlk, n));
  }
}
