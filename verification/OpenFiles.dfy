/** Handle operations on an open file of a mounted volume. While the file is open its chain is
    detached, so that the handle may run ahead of the directory item. */
module OpenFiles {
  import opened Layout
  import opened Shapes
  import opened Volume
  import opened Chains
  import opened Directory
  import opened Tree
  import opened Entries
  import opened Links
  import opened Mounted
  import opened Detaching
  import opened FileOps
  import opened Cursor
  import opened RandomAccess

  /** dirBlk and dirItem of the handle are the place of entry e on the disk. */
  ghost predicate Located(g: Fs, h: Handle, e: Entry)
    reads g`sh, h`dirBlk, h`dirItem
  {
    AtSlot(g.sh, e, h.dirBlk, h.dirItem)
  }

  /** h is open on the file of entry e, whose data chain is c. */
  ghost predicate OpenOn(g: Fs, h: Handle, c: seq<nat>, e: Entry)
    reads g`disk, g`marked, g`sh, g`currentDirBlk, g`lastBitmapBlk, g`lastBitmapLen, g`loadedBitmapBlk, g.bitmap
    reads h`dirBlk, h`dirItem, h`firstBlk, h`currBlk, h`currPos
  {
    Holding(g, Elems(c), Detach(e)) && HasFile(Dirs(g), e) && Located(g, h, e) && Tracks(g, h, c)
  }

  /** The directory item says what the handle says. */
  ghost predicate Synced(g: Fs, h: Handle, e: Entry)
    reads g`disk, g`sh, h`firstBlk, h`size
  {
    HasFile(Dirs(g), e) && Dirs(g)[e.dir][e.name].blk == h.firstBlk && Dirs(g)[e.dir][e.name].size == h.size
  }

  /** An open file whose item names another first block than the handle cannot be attached: its
      blocks would hang from no entry, or the entry would lead nowhere. */
  lemma NotAttached(disk: seq<Block>, marked: set<nat>, sh: Shape, d: seq<nat>, e: Entry)
    requires Wf(disk, marked, sh, Elems(d), Detach(e)) && DataChain(disk, d)
    requires HasFile(TreeOf(disk, sh), e) && TreeOf(disk, sh)[e.dir][e.name].blk != HeadOf(d)
    ensures !Wf(disk, marked, With(sh, d, e), {}, Nothing)
  {
    hide OwnOk, DirsOk, FilesOk, DepthOk, MarksOk, TreeOf, FilesOf, DataAt, Distinct, Lists, Listing, Flat;
    var T: Listings := TreeOf(disk, sh);
    if d == [] {
      var x := T[e.dir][e.name].blk;
      assert x in sh.chains && x != ROOT ==> RefAt(T, sh.up, Detach(e), x);
      assert !ItemOk(T[e.dir][e.name], e, T.Keys, sh.chains.Keys, sh.up);
    } else {
      PendingApart(|disk|, marked, sh, Elems(d));
      FileAdded(disk, sh, d, e);
      WithChainBooks(sh, d, e);
      RefsHead(T, sh.chains.Keys, sh.up, Detach(e));
      assert !RefAt(T, sh.up[d[0] := e], Nothing, d[0]);
    }
  }

  /** An open file is reachable again, with all its blocks accounted for, exactly if its item
      names the first block of its chain. */
  lemma ReachableIff(g: Fs, h: Handle, d: seq<nat>, e: Entry)
    requires OpenOn(g, h, d, e)
    ensures Wf(g.disk, g.marked, With(g.sh, d, e), {}, Nothing) <==> Dirs(g)[e.dir][e.name].blk == HeadOf(d)
  {
    hide Wf, TreeOf, FilesOf, DataChain, Flat;
    if Dirs(g)[e.dir][e.name].blk == HeadOf(d) {
      AttachFile(g.disk, g.marked, g.sh, d, e);
    } else {
      NotAttached(g.disk, g.marked, g.sh, d, e);
    }
  }

  /** The slot of the open file, for writing its item. */
  lemma OpenSlot(disk: seq<Block>, marked: set<nat>, sh: Shape, pend: set<nat>, e: Entry)
    requires Wf(disk, marked, sh, pend, Detach(e)) && HasFile(TreeOf(disk, sh), e)
    requires e.dir in sh.slots && e.dir in sh.chains && e.name in sh.slots[e.dir]
    ensures var s, c := sh.slots[e.dir][e.name], sh.chains[e.dir];
      && CanPut(disk, sh, Detach(e), e.dir, s, e.name) && GoodName(e.name) && s.i < |c|
      && c[s.i] < |disk| && Usable(c[s.i], |disk|)
      && disk[c[s.i]].DirBlk? && |disk[c[s.i]].items| == DIR_ITEMS && s.k < DIR_ITEMS
      && c[s.i] in sh.own && disk[c[s.i]].items[s.k] == TreeOf(disk, sh)[e.dir][e.name]
      && disk[c[s.i]].items[s.k].name == e.name
  {
    hide FilesOk, RefsOk, DepthOk, MarksOk, Packed;
    var c, s := sh.chains[e.dir], sh.slots[e.dir][e.name];
    DirOf(disk, sh, e.dir);
    ListingAt(Lists(disk, c), sh.slots[e.dir]);
    assert HoldsName(Lists(disk, c), s, e.name);
    assert DirAt(disk, c, ParentOf(sh.up, e.dir), s.i);
    assert c[s.i] in Elems(c);
  }

  /** The item of entry e with another first block and size. */
  ghost function WithItem(T: Listings, e: Entry, blk: nat, size: nat): Listings
    requires e.dir in T && e.name in T[e.dir]
  {
    PutEntry(T, e, T[e.dir][e.name].(blk := blk, size := size))
  }

  /** update_dir_item: writes block pointer and size of the handle into the directory item. */
  method UpdateDirItem(g: Fs, h: Handle, ghost pend: set<nat>, ghost e: Entry)
    requires Holding(g, pend, Detach(e)) && HasFile(Dirs(g), e) && Located(g, h, e)
    modifies g`disk, g`buf
    ensures Holding(g, pend, Detach(e)) && Located(g, h, e) && Synced(g, h, e) && Files(g) == old(Files(g))
    ensures e.dir in old(Dirs(g)) && e.name in old(Dirs(g))[e.dir]
    ensures Dirs(g) == WithItem(old(Dirs(g)), e, h.firstBlk, h.size)
    ensures h.dirBlk < |g.disk| == |old(g.disk)| && g.disk == old(g.disk)[h.dirBlk := g.disk[h.dirBlk]]
    ensures h.dirBlk !in pend
  {
    hide Wf, OwnOk, DirsOk, FilesOk, RefsOk, DepthOk, MarksOk, Lists, Listing, TreeOf, FilesOf, Index, CanPut,
      Packed, DirChain, BitmapsOn, MarkedOn, Distinct, Canonical, DataAt, DataChain, Flat, Usable;
    ghost var disk0, sh0, s := g.disk, g.sh, g.sh.slots[e.dir][e.name];
    OpenSlot(g.disk, g.marked, g.sh, pend, e);
    FreshFacts(g, pend, Detach(e));
    PendingNotOwned(g.disk, g.marked, g.sh, pend, Detach(e));
    g.buf := g.ReadBlock(h.dirBlk);
    g.buf := g.buf.(items := g.buf.items[h.dirItem := g.buf.items[h.dirItem].(blk := h.firstBlk, size := h.size)]);
    g.WriteBlock(h.dirBlk, g.buf);
    ghost var it := TreeOf(disk0, sh0)[e.dir][e.name].(blk := h.firstBlk, size := h.size);
    WfFilePut(disk0, g.disk, g.marked, sh0, pend, Detach(e), e.dir, s, it);
    SlotsSame(sh0, e.dir, e.name);
  }

  lemma SlotsSame(sh: Shape, h: nat, n: Name)
    requires h in sh.slots && n in sh.slots[h]
    ensures sh.(slots := sh.slots[h := sh.slots[h][n := sh.slots[h][n]]]) == sh
  {
    assert sh.slots[h][n := sh.slots[h][n]] == sh.slots[h];
    assert sh.slots[h := sh.slots[h]] == sh.slots;
  }

  lemma PendingNotOwned(disk: seq<Block>, marked: set<nat>, sh: Shape, pend: set<nat>, skip: Detached)
    requires Wf(disk, marked, sh, pend, skip)
    ensures forall b :: b in pend ==> b !in sh.own
  {
  }

  lemma ChainUntouched(disk: seq<Block>, disk': seq<Block>, c: seq<nat>, x: nat)
    requires DataChain(disk, c) && x !in Elems(c) && x < |disk| && |disk'| == |disk| && disk' == disk[x := disk'[x]]
    ensures DataChain(disk', c) && Flat(disk', c) == Flat(disk, c)
  {
    assert forall i :: 0 <= i < |c| ==> c[i] in Elems(c);
    FrameData(disk, disk', c);
  }

  lemma PrefixElems(c: seq<nat>, d: seq<nat>)
    requires |c| <= |d| && d[..|c|] == c
    ensures Elems(c) <= Elems(d)
    ensures forall b :: b in Elems(d) && b !in Elems(c) ==> exists i :: |c| <= i < |d| && d[i] == b
  {
    assert forall i :: 0 <= i < |c| ==> c[i] == d[i] && c[i] in d && c[i] in c;
    forall b | b in Elems(d) && b !in Elems(c) ensures exists i :: |c| <= i < |d| && d[i] == b {
      var i :| 0 <= i < |d| && d[i] == b;
      assert |c| <= i < |d| && d[i] == b;
    }
  }

  /** The chain of the open file grew from c to d on the disk; the rest of the volume is as it was. */
  lemma WfGrown(was: Snapshot, now: Snapshot, V: seq<Block>, sh: Shape, c: seq<nat>, d: seq<nat>, skip: Detached)
    requires Wf(was.disk, was.marked, sh, Elems(c), skip) && Grown(was, c, now, V, d)
    ensures Wf(now.disk, now.marked, sh, Elems(d), skip)
    ensures TreeOf(now.disk, sh) == TreeOf(was.disk, sh) && FilesOf(now.disk, sh) == FilesOf(was.disk, sh)
  {
    hide OwnOk, DirsOk, FilesOk, RefsOk, DepthOk, MarksOk, TreeOf, FilesOf, DataChain;
    GrownLen(was, c, now, V, d);
    MarksSubset(|was.disk|, was.marked, sh, Elems(c));
    PrefixElems(c, d);
    assert now.marked == was.marked - Elems(c) + Elems(d);
    assert Elems(c) + Elems(d) == Elems(d);
    WfRepend(was.disk, now.disk, was.marked, now.marked, sh, Elems(c), Elems(d), skip);
  }

  /** tfs_write on a valid handle. A write that succeeds replaces [offset, offset + len) of the
      file's bytes, which are first extended by zero blocks as far as needed. If the disk fills
      up, the bytes written so far are in place. */
  method WriteHandle(g: Fs, h: Handle, data: seq<bv8>, offset: nat, ghost c: seq<nat>, ghost e: Entry)
      returns (ret: nat, ghost d: seq<nat>)
    requires OpenOn(g, h, c, e) && g.err == None && |data| > 0 && WriteFits(offset, |data|, |c| + |FreeBlocks(g)|)
    modifies g`disk, g`marked, g`err, g`loadedBitmapBlk, g`buf, g.bitmap, h`firstBlk, h`currBlk, h`currPos, h`size
    ensures OpenOn(g, h, d, e) && Files(g) == old(Files(g)) && DataChain(old(g.disk), c)
    ensures |c| <= |d| && d[..|c|] == c && forall i :: |c| <= i < |d| ==> d[i] in old(FreeBlocks(g))
    ensures ret <= |data| && (ret > 0 ==> offset + ret <= DATA_LEN * |d|)
    ensures ret == 0 ==> Flat(g.disk, d) == Extended(old(Now(g)), c, |d|)
    ensures ret > 0 ==> Flat(g.disk, d) == Splice(Extended(old(Now(g)), c, |d|), offset, data[..ret])
    ensures HasFile(old(Dirs(g)), e)
    ensures g.err == None ==> ret == |data| && |d| == Max(|c|, (offset + |data| - 1) / DATA_LEN + 1)
    ensures g.err == None ==> h.size == Max(old(h.size), offset + |data|)
    ensures g.err == None ==>
      Dirs(g) == if |c| <= offset / DATA_LEN || old(h.size) < offset + |data|
                 then WithItem(old(Dirs(g)), e, HeadOf(d), h.size) else old(Dirs(g))
    ensures |FreeBlocks(g)| + |d| == |old(FreeBlocks(g))| + |c|
    // the first block stays, unless the file got its first blocks in this call
    ensures HeadOf(d) == HeadOf(c) <==> c != [] || d == []
    ensures g.err != None ==> g.err == DiskFull && FreeBlocks(g) == {} && ret < |data| && Dirs(g) == old(Dirs(g))
    ensures g.err != None ==> ret == Max(DATA_LEN * |d|, offset) - offset
    ensures g.err != None ==>
      h.size == if offset < DATA_LEN * (|d| - 1) then Max(old(h.size), DATA_LEN * (|d| - 1)) else old(h.size)
  {
    hide Wf, OwnOk, DirsOk, FilesOk, RefsOk, DepthOk, MarksOk, TreeOf, FilesOf, Index,
      BitmapsOn, MarkedOn, Distinct, DataAt, DataChain, Flat, Usable, Grown, Extended, Splice, Elems;
    ghost var was, sh0 := Now(g), g.sh;
    var update;
    ret, update, d := WriteAt(g, h, data, offset, c);
    WfGrown(was, Now(g), g.disk, sh0, c, d, Detach(e));
    GrownShape(was, c, Now(g), g.disk, d, g.blkCount);
    FullMeansNoneFree(g);
    SameHead(g.disk, c, d);
    GrownFree(was, c, Now(g), g.disk, d);
    if g.err == None && update {
      ghost var disk1 := g.disk;
      UpdateDirItem(g, h, Elems(d), e);
      ChainUntouched(disk1, g.disk, d, h.dirBlk);
    }
  }

  lemma SameHead(disk: seq<Block>, c: seq<nat>, d: seq<nat>)
    requires DataChain(disk, d) && |c| <= |d| && d[..|c|] == c
    ensures HeadOf(d) == HeadOf(c) <==> c != [] || d == []
  {
    if c != [] { assert d[0] == d[..|c|][0]; }
    if d != [] { assert DataAt(disk, d, 0); }
  }

  lemma GrownShape(was: Snapshot, c: seq<nat>, now: Snapshot, V: seq<Block>, d: seq<nat>, n: nat)
    requires Grown(was, c, now, V, d) && |was.disk| == n
    ensures |c| <= |d| && d[..|c|] == c
    ensures forall i :: |c| <= i < |d| ==> d[i] < n && d[i] !in was.marked
    ensures |d| == |c| ==> HeadOf(d) == HeadOf(c)
  {
    GrownLen(was, c, now, V, d);
    if |d| == |c| { assert d == c; }
  }

  // ----- tfs_write without data -----

  /** All blocks of the chain but the last are on the disk as they should be. */
  ghost predicate LinkedButLast(disk: seq<Block>, d: seq<nat>)
  {
    forall i :: 0 <= i < |d| - 1 ==> DataAt(disk, d, i)
  }

  /** The chain whose last block was taken but never written: it is a proper chain only if that
      block happened to hold the right links already. */
  lemma UnwrittenLast(was: Snapshot, c: seq<nat>, now: Snapshot, disk': seq<Block>, buf: Block, d: seq<nat>, x: nat)
    requires d != [] && d[|d| - 1] < |now.disk| && Grown(was, c, now, Through(now.disk, d[|d| - 1], buf), d)
    requires Unwritten(was, now, d[|d| - 1])
    requires |disk'| == |now.disk| && x !in Elems(d) && x < |disk'| && disk' == now.disk[x := disk'[x]]
    ensures LinkedButLast(disk', d) && d[|d| - 1] < |was.disk| == |disk'| && disk'[d[|d| - 1]] == was.disk[d[|d| - 1]]
    ensures DataChain(disk', d) <==> DataAt(was.disk, d, |d| - 1)
  {
    var last := |d| - 1;
    var V := Through(now.disk, d[last], buf);
    assert forall i :: 0 <= i < |d| ==> d[i] in Elems(d);
    forall i | 0 <= i < last ensures DataAt(disk', d, i) {
      assert DataAt(V, d, i) && d[i] != d[last];
    }
    assert DataAt(disk', d, last) <==> DataAt(was.disk, d, last);
  }

  /** Every block of c holds the bytes it held, and the others of d but the last hold zeros. */
  lemma UnwrittenBytes(was: Snapshot, c: seq<nat>, now: Snapshot, disk': seq<Block>, buf: Block, d: seq<nat>, x: nat)
    requires |c| < |d| && d[|d| - 1] < |now.disk| && DataChain(was.disk, c)
    requires Extends(was, c, now, Through(now.disk, d[|d| - 1], buf), d)
    requires |disk'| == |now.disk| && x !in Elems(d) && x < |disk'| && disk' == now.disk[x := disk'[x]]
    ensures forall i :: 0 <= i < |c| ==>
      && c[i] < |was.disk| == |disk'| && was.disk[c[i]].DataBlk? && disk'[c[i]].DataBlk?
      && disk'[c[i]].data == was.disk[c[i]].data
    ensures forall i :: |c| <= i < |d| - 1 ==>
      d[i] < |disk'| && disk'[d[i]].DataBlk? && disk'[d[i]].data == Zeros(DATA_LEN)
  {
    hide DataChain, Flat, Usable;
    var V := Through(now.disk, d[|d| - 1], buf);
    forall i | 0 <= i < |d| - 1
      ensures d[i] < |disk'| && disk'[d[i]].DataBlk? && |disk'[d[i]].data| == DATA_LEN
      ensures DATA_LEN * i + DATA_LEN <= |Flat(V, d)|
      ensures disk'[d[i]].data == Flat(V, d)[DATA_LEN * i..DATA_LEN * i + DATA_LEN]
    {
      BlockBytes(V, d, i);
      LastApart(V, d, i);
      assert d[i] in Elems(d);
    }
    forall i | 0 <= i < |c|
      ensures c[i] < |was.disk| && was.disk[c[i]].DataBlk? && was.disk[c[i]].data == disk'[c[i]].data
    {
      BlockBytes(was.disk, c, i);
      assert c[i] == d[i];
    }
  }

  lemma LastApart(disk: seq<Block>, d: seq<nat>, i: nat)
    requires DataChain(disk, d) && i < |d| - 1
    ensures d[i] != d[|d| - 1]
  {
  }

  /** tfs_write with length 0. Inside the chain it changes nothing. Past the end it links fresh
      blocks like any other write and updates the directory item, but leaves the last one
      unwritten: on the disk that block still holds what it held before. */
  method WriteNothing(g: Fs, h: Handle, offset: nat, ghost c: seq<nat>, ghost e: Entry) returns (ghost d: seq<nat>)
    requires OpenOn(g, h, c, e) && g.err == None && Fits32(offset, |c| + |FreeBlocks(g)|)
    modifies g`disk, g`marked, g`err, g`loadedBitmapBlk, g`buf, g.bitmap, h`firstBlk, h`currBlk, h`currPos
    ensures Holding(g, Elems(d), Detach(e)) && Located(g, h, e) && Files(g) == old(Files(g)) && HasFile(old(Dirs(g)), e)
    ensures h.firstBlk == HeadOf(d) && |c| <= |d| && d[..|c|] == c
    ensures offset / DATA_LEN < |c| ==>
      g.err == None && OpenOn(g, h, c, e) && g.disk == old(g.disk) && g.marked == old(g.marked) && d == c
    ensures |c| <= offset / DATA_LEN && g.err == None ==>
      && |d| == offset / DATA_LEN + 1 && Synced(g, h, e)
      && Dirs(g) == WithItem(old(Dirs(g)), e, d[0], h.size)
      && LinkedButLast(g.disk, d) && d[|d| - 1] < |old(g.disk)| && g.disk[d[|d| - 1]] == old(g.disk)[d[|d| - 1]]
      && (DataChain(g.disk, d) <==> DataAt(old(g.disk), d, |d| - 1))
    ensures g.err != None ==>
      && g.err == DiskFull && FreeBlocks(g) == {} && |d| <= offset / DATA_LEN
      && OpenOn(g, h, d, e) && Dirs(g) == old(Dirs(g))
    // the old blocks keep their bytes, and the new ones but the last are full of zeros
    ensures |c| <= offset / DATA_LEN && g.err == None ==>
      && (forall i :: 0 <= i < |c| ==>
            && c[i] < |old(g.disk)| == |g.disk| && old(g.disk)[c[i]].DataBlk? && g.disk[c[i]].DataBlk?
            && g.disk[c[i]].data == old(g.disk)[c[i]].data)
      && (forall i :: |c| <= i < |d| - 1 ==>
            d[i] < |g.disk| && g.disk[d[i]].DataBlk? && g.disk[d[i]].data == Zeros(DATA_LEN))
    ensures DataChain(old(g.disk), c)
    ensures g.err != None ==> Flat(g.disk, d) == Flat(old(g.disk), c) + Zeros(DATA_LEN * (|d| - |c|))
    // the new blocks come out of the free ones
    ensures forall i :: |c| <= i < |d| ==> d[i] in old(FreeBlocks(g))
    ensures |FreeBlocks(g)| + |d| == |old(FreeBlocks(g))| + |c|
  {
    hide Wf, OwnOk, DirsOk, FilesOk, RefsOk, DepthOk, MarksOk, TreeOf, FilesOf, Index,
      BitmapsOn, MarkedOn, Distinct, DataAt, DataChain, Flat, Usable, Grown, Extended, Elems, Unwritten;
    ghost var was, sh0 := Now(g), g.sh;
    var res;
    res, d := Seek(g, h, offset, true, c);
    ghost var V := if res == SeekAppend then Through(g.disk, h.currBlk, g.buf) else g.disk;
    WfGrown(was, Now(g), V, sh0, c, d, Detach(e));
    GrownShape(was, c, Now(g), V, d, g.blkCount);
    GrownFree(was, c, Now(g), V, d);
    FullMeansNoneFree(g);
    if g.err != None {
      ExtendsFinal(was, c, g, h, d);
      return;
    }
    if res == SeekAppend {
      ghost var now, buf := Now(g), g.buf;
      UpdateDirItem(g, h, Elems(d), e);
      UnwrittenLast(was, c, now, g.disk, buf, d, h.dirBlk);
      UnwrittenBytes(was, c, now, g.disk, buf, d, h.dirBlk);
    }
  }

  // ----- tfs_read and tfs_trunc -----

  /** tfs_read on a valid handle. */
  method ReadHandle(g: Fs, h: Handle, len: nat, offset: nat, ghost c: seq<nat>, ghost e: Entry) returns (out: seq<bv8>)
    requires OpenOn(g, h, c, e) && g.err == None && (Fits32(offset, |c|) || h.size < offset)
    modifies g`disk, g`marked, g`err, g`loadedBitmapBlk, g`buf, g.bitmap, h`firstBlk, h`currBlk, h`currPos
    ensures OpenOn(g, h, c, e) && g.err == None && g.disk == old(g.disk) && g.marked == old(g.marked)
    ensures h.firstBlk == old(h.firstBlk)
    ensures out == Window(Flat(g.disk, c), h.size, offset, len)
    // as many bytes as asked for, as far as size and blocks reach, and exactly those of the file
    ensures |out| <= len && (out != [] ==> offset + |out| <= h.size && offset + |out| <= |Flat(g.disk, c)|)
    ensures |out| == len || offset + |out| >= h.size || offset + |out| >= |Flat(g.disk, c)|
    ensures forall i :: 0 <= i < |out| ==> offset + i < |Flat(g.disk, c)| && out[i] == Flat(g.disk, c)[offset + i]
  {
    hide Wf, OwnOk, DirsOk, FilesOk, RefsOk, DepthOk, MarksOk, TreeOf, FilesOf, Index,
      BitmapsOn, MarkedOn, Distinct, DataAt, DataChain, Flat, Usable, Elems, Window;
    out := ReadAt(g, h, len, offset, c);
  }

  /** tfs_trunc on a valid handle. It changes the chain, but never the size of the handle. */
  method TruncHandle(g: Fs, h: Handle, size: nat, ghost c: seq<nat>, ghost e: Entry) returns (ghost d: seq<nat>)
    requires OpenOn(g, h, c, e) && g.err == None && Fits32(size, |c| + |FreeBlocks(g)|)
    modifies g`disk, g`marked, g`err, g`loadedBitmapBlk, g`buf, g.bitmap, h`firstBlk, h`currBlk, h`currPos
    ensures OpenOn(g, h, d, e) && Files(g) == old(Files(g)) && DataChain(old(g.disk), c) && HasFile(old(Dirs(g)), e)
    ensures g.err == None ==> |d| == if size == 0 then 0 else size / DATA_LEN + 1
    ensures |d| <= |c| && g.err == None ==>
      && d == c[..|d|] && Flat(g.disk, d) == Flat(old(g.disk), c)[..DATA_LEN * |d|]
      && g.marked == old(g.marked) - Elems(c[|d|..])
    ensures |c| < |d| || g.err != None ==>
      && |c| <= |d| && d[..|c|] == c && Flat(g.disk, d) == Extended(old(Now(g)), c, |d|)
      && g.marked == old(g.marked) + Elems(d)
    ensures g.err == None ==> Synced(g, h, e)
    ensures g.err == None ==>
      Dirs(g) == WithItem(old(Dirs(g)), e, HeadOf(d), h.size)
    ensures |FreeBlocks(g)| + |d| == |old(FreeBlocks(g))| + |c|
    ensures |c| <= |d| ==> (HeadOf(d) == HeadOf(c) <==> c != [] || d == [])
    ensures g.err != None ==>
      g.err == DiskFull && FreeBlocks(g) == {} && size > 0 && |d| <= size / DATA_LEN && Dirs(g) == old(Dirs(g))
  {
    hide Wf, OwnOk, DirsOk, FilesOk, RefsOk, DepthOk, MarksOk, TreeOf, FilesOf, Index,
      BitmapsOn, MarkedOn, Distinct, DataAt, DataChain, Flat, Usable, Grown, Extended, Elems, SameOutside;
    ghost var was, sh0 := Now(g), g.sh;
    DataDistinct(g.disk, c);
    d := TruncAt(g, h, size, c);
    if |d| <= |c| && g.err == None {
      WfCut(was, Now(g), sh0, c, |d|, Detach(e));
      CutFree(was, c, Now(g), |d|);
    } else {
      GrownFree(was, c, Now(g), g.disk, d);
      WfGrown(was, Now(g), g.disk, sh0, c, d, Detach(e));
      GrownShape(was, c, Now(g), g.disk, d, g.blkCount);
      GrownMarks(was, c, Now(g), g.disk, d);
    }
    if |c| <= |d| { SameHead(g.disk, c, d); }
    FullMeansNoneFree(g);
    if g.err != None {
      return;
    }
    ghost var disk1 := g.disk;
    UpdateDirItem(g, h, Elems(d), e);
    ChainUntouched(disk1, g.disk, d, h.dirBlk);
  }

  /** Cutting a chain to its first k blocks gives the others back. */
  lemma CutFree(was: Snapshot, c: seq<nat>, now: Snapshot, k: nat)
    requires |was.disk| == |now.disk| && DataChain(was.disk, c) && k <= |c| && Elems(c) <= was.marked
    requires now.marked == was.marked - Elems(c[k..])
    ensures |FreeOf(now)| + k == |FreeOf(was)| + |c|
  {
    hide DataChain, FreeOf;
    GrownDistinct(was.disk, c, k);
    DistinctCard(c[k..]);
    ChainInRange(was.disk, c);
    TailElems(c, k);
    FreeSplit(now, was, Elems(c[k..]));
  }

  lemma TailElems(c: seq<nat>, k: nat)
    requires k <= |c|
    ensures Elems(c[k..]) <= Elems(c) && forall b :: b in Elems(c[k..]) ==> b in c
  {
    assert forall i :: 0 <= i < |c| - k ==> c[k..][i] == c[k + i];
  }

  lemma GrownMarks(was: Snapshot, c: seq<nat>, now: Snapshot, V: seq<Block>, d: seq<nat>)
    requires Grown(was, c, now, V, d)
    ensures now.marked == was.marked + Elems(d)
  {
  }

  /** The chain of the open file was cut to its first k blocks. */
  lemma WfCut(was: Snapshot, now: Snapshot, sh: Shape, c: seq<nat>, k: nat, skip: Detached)
    requires Wf(was.disk, was.marked, sh, Elems(c), skip) && k <= |c| && Distinct(c)
    requires SameOutside(was.disk, now.disk, Elems(c) + Elems(c[..k])) && now.marked == was.marked - Elems(c[k..])
    ensures Wf(now.disk, now.marked, sh, Elems(c[..k]), skip)
    ensures TreeOf(now.disk, sh) == TreeOf(was.disk, sh) && FilesOf(now.disk, sh) == FilesOf(was.disk, sh)
  {
    hide OwnOk, DirsOk, FilesOk, RefsOk, DepthOk, MarksOk, TreeOf, FilesOf, SameOutside;
    MarksSubset(|was.disk|, was.marked, sh, Elems(c));
    SplitElems(c, k);
    assert now.marked == was.marked - Elems(c) + Elems(c[..k]);
    WfRepend(was.disk, now.disk, was.marked, now.marked, sh, Elems(c), Elems(c[..k]), skip);
  }

  lemma SplitElems(c: seq<nat>, k: nat)
    requires k <= |c| && Distinct(c)
    ensures Elems(c) == Elems(c[..k]) + Elems(c[k..]) && Elems(c[..k]) !! Elems(c[k..])
  {
    assert c == c[..k] + c[k..];
  }
}
