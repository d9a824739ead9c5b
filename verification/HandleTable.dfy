/** The handle table: tfs_open and tfs_close, and the open count that tfs_delete and
    tfs_write_file rely on. */
module HandleTable {
  import opened Layout
  import opened Shapes
  import opened Volume
  import opened Directory
  import opened Tree
  import opened Mounted
  import opened Delete
  import opened FileOps
  import opened Cursor

  /** The part of a handle that identifies a directory slot, and its usage count. */
  datatype Row = Row(blk: nat, item: nat, count: nat)
  {
    predicate At(b: nat, k: nat) { blk == b && item == k }
  }

  ghost function RowOf(h: Handle): Row
    reads h
  {
    Row(h.dirBlk, h.dirItem, h.usageCount)
  }

  ghost function Rows(hs: seq<Handle>): (r: seq<Row>)
    reads hs
    ensures |r| == |hs| && forall i :: 0 <= i < |hs| ==> r[i] == RowOf(hs[i])
  {
    seq(|hs|, i requires 0 <= i < |hs| reads hs => RowOf(hs[i]))
  }

  lemma SameRows(rows: seq<Row>, hs: seq<Handle>)
    requires |rows| == |hs| && forall i :: 0 <= i < |hs| ==> rows[i] == RowOf(hs[i])
    ensures Rows(hs) == rows
  {
  }

  /** No handle, open or closed, for the slot of an open handle stands before it. */
  ghost predicate TableOk(rows: seq<Row>)
  {
    forall i, j :: 0 <= i < j < |rows| && rows[j].count > 0 ==> !rows[i].At(rows[j].blk, rows[j].item)
  }

  /** How often slot (b, k) is open: the counts of all its handles together. */
  ghost function TotalCount(rows: seq<Row>, b: nat, k: nat): nat
  {
    if rows == [] then 0
    else TotalCount(rows[..|rows| - 1], b, k) + if rows[|rows| - 1].At(b, k) then rows[|rows| - 1].count else 0
  }

  ghost function FirstCount(rows: seq<Row>, b: nat, k: nat, i: nat): nat
    requires i <= |rows|
    decreases |rows| - i
  {
    if i == |rows| then 0 else if rows[i].At(b, k) then rows[i].count else FirstCount(rows, b, k, i + 1)
  }

  lemma UsageIsFirst(hs: seq<Handle>, b: nat, k: nat, i: nat)
    requires i <= |hs|
    ensures UsageFrom(hs, b, k, i) == FirstCount(Rows(hs), b, k, i)
    decreases |hs| - i
  {
    if i < |hs| {
      UsageIsFirst(hs, b, k, i + 1);
    }
  }

  /** In a table whose rows for (b, k) are all closed the slot counts as closed. */
  lemma {:induction false} AllClosed(rows: seq<Row>, b: nat, k: nat)
    requires forall i :: 0 <= i < |rows| && rows[i].At(b, k) ==> rows[i].count == 0
    ensures TotalCount(rows, b, k) == 0
  {
    if rows == [] {
    } else {
      AllClosed(rows[..|rows| - 1], b, k);
    }
  }

  /** If row i is the only one for (b, k) with a count, its count is the total. */
  lemma {:induction false} OnlyOne(rows: seq<Row>, b: nat, k: nat, i: nat)
    requires i < |rows| && rows[i].At(b, k)
    requires forall j :: 0 <= j < |rows| && j != i && rows[j].At(b, k) ==> rows[j].count == 0
    ensures TotalCount(rows, b, k) == rows[i].count
  {
    var init := rows[..|rows| - 1];
    if i == |rows| - 1 {
      AllClosed(init, b, k);
    } else {
      OnlyOne(init, b, k, i);
    }
  }

  /** item_usage_count stops at the first match; in a proper table that is the true count. */
  lemma {:induction false} FirstIsTotal(rows: seq<Row>, b: nat, k: nat, i: nat)
    requires TableOk(rows) && i <= |rows| && forall j :: 0 <= j < i ==> !rows[j].At(b, k)
    ensures FirstCount(rows, b, k, i) == TotalCount(rows, b, k)
    decreases |rows| - i
  {
    if i == |rows| {
      AllClosed(rows, b, k);
    } else if rows[i].At(b, k) {
      OnlyOne(rows, b, k, i);
    } else {
      FirstIsTotal(rows, b, k, i + 1);
    }
  }

  /** Replacing one row changes the totals by that row. */
  lemma {:induction false} RowReplaced(rows: seq<Row>, i: nat, r: Row, b: nat, k: nat)
    requires i < |rows|
    ensures TotalCount(rows[i := r], b, k) + (if rows[i].At(b, k) then rows[i].count else 0) ==
      TotalCount(rows, b, k) + if r.At(b, k) then r.count else 0
  {
    var n := |rows| - 1;
    if i == n {
      assert rows[i := r][..n] == rows[..n];
    } else {
      RowReplaced(rows[..n], i, r, b, k);
      assert rows[i := r][..n] == rows[..n][i := r];
    }
  }

  ghost predicate TableReady(g: Fs)
    reads g.handles
  {
    && |g.handles| == MAX_FDS
    && (forall i, j :: 0 <= i < j < MAX_FDS ==> g.handles[i] != g.handles[j])
    && TableOk(Rows(g.handles))
  }

  lemma TableSize(g: Fs)
    requires TableReady(g)
    ensures |g.handles| == MAX_FDS
  {
  }

  ghost predicate FreeHandle(hs: seq<Handle>)
    reads hs
  {
    exists i :: 0 <= i < |hs| && hs[i].usageCount == 0
  }

  /** The counts of the table changed by delta for slot (b, k) and not at all for others. */
  ghost predicate Recounted(rows: seq<Row>, rows': seq<Row>, b: nat, k: nat, delta: int)
  {
    forall x, y :: TotalCount(rows', x, y) == TotalCount(rows, x, y) + if x == b && y == k then delta else 0
  }

  lemma CountReplaced(rows: seq<Row>, i: nat, r: Row)
    requires i < |rows| && (rows[i].count == 0 || (r.blk == rows[i].blk && r.item == rows[i].item))
    ensures Recounted(rows, rows[i := r], r.blk, r.item, r.count - rows[i].count)
  {
    forall x, y
      ensures TotalCount(rows[i := r], x, y) ==
        TotalCount(rows, x, y) + if x == r.blk && y == r.item then r.count - rows[i].count else 0
    {
      RowReplaced(rows, i, r, x, y);
    }
  }

  lemma TableAfterCount(rows: seq<Row>, i: nat, count: nat)
    requires TableOk(rows) && i < |rows| && (rows[i].count > 0 || count == 0)
    ensures TableOk(rows[i := rows[i].(count := count)])
  {
  }

  lemma TableAfterPlace(rows: seq<Row>, i: nat, b: nat, k: nat)
    requires TableOk(rows) && i < |rows| && rows[i].count == 0
    requires forall j :: 0 <= j < i ==> rows[j].count > 0
    requires forall j :: 0 <= j < |rows| && rows[j].At(b, k) ==> rows[j].count == 0
    ensures TableOk(rows[i := Row(b, k, 1)])
  {
  }

  lemma LiveIsTotal(rows: seq<Row>, i: nat)
    requires TableOk(rows) && i < |rows| && rows[i].count > 0
    ensures TotalCount(rows, rows[i].blk, rows[i].item) == rows[i].count
  {
    forall j | 0 <= j < |rows| && j != i && rows[j].At(rows[i].blk, rows[i].item) ensures rows[j].count == 0 {
      if j > i && rows[j].count > 0 {
        assert rows[i].At(rows[j].blk, rows[j].item);
      }
    }
    OnlyOne(rows, rows[i].blk, rows[i].item, i);
  }

  /** The first loop of tfs_open: the live handle of the slot, or MAX_FDS. */
  method LiveHandle(g: Fs, k: nat) returns (fd: nat)
    requires TableReady(g)
    ensures fd <= MAX_FDS
    ensures fd < MAX_FDS ==>
      var h := g.handles[fd]; h.dirBlk == g.loadedDirBlk && h.dirItem == k && h.usageCount > 0
    ensures fd < MAX_FDS <==> TotalCount(Rows(g.handles), g.loadedDirBlk, k) > 0
  {
    ghost var rows := Rows(g.handles);
    fd := 0;
    while fd < MAX_FDS
      invariant fd <= MAX_FDS
      invariant forall j :: 0 <= j < fd && rows[j].At(g.loadedDirBlk, k) ==> rows[j].count == 0
    {
      var h := g.handles[fd];
      assert rows[fd] == RowOf(h);
      if h.dirBlk == g.loadedDirBlk && h.dirItem == k && h.usageCount > 0 {
        LiveIsTotal(rows, fd);
        return;
      }
      fd := fd + 1;
    }
    AllClosed(rows, g.loadedDirBlk, k);
  }

  /** The second loop of tfs_open: the first handle that is not in use. With a full table it goes
      on to the place behind the last handle, where it reads `beyond` for a usage count, and only
      then checks its bound. */
  method ClosedHandle(g: Fs, beyond: nat) returns (fd: nat, checked: bool)
    requires TableReady(g)
    ensures fd <= MAX_FDS && (fd == MAX_FDS <==> !FreeHandle(g.handles))
    ensures fd < MAX_FDS ==> g.handles[fd].usageCount == 0
    ensures forall j :: 0 <= j < fd ==> g.handles[j].usageCount > 0
    ensures checked <==> !FreeHandle(g.handles) && beyond > 0
  {
    fd := 0;
    while (if fd < MAX_FDS then g.handles[fd].usageCount else beyond) > 0
      invariant fd <= MAX_FDS
      invariant forall j :: 0 <= j < fd ==> g.handles[j].usageCount > 0
      decreases MAX_FDS - fd
    {
      if fd == MAX_FDS {
        return fd, true;
      }
      fd := fd + 1;
    }
    return fd, false;
  }

  lemma TotalRow(rows: seq<Row>, b: nat, k: nat)
    requires TotalCount(rows, b, k) == 0
    ensures forall j :: 0 <= j < |rows| && rows[j].At(b, k) ==> rows[j].count == 0
  {
    if rows != [] {
      TotalRow(rows[..|rows| - 1], b, k);
      assert forall j :: 0 <= j < |rows| - 1 ==> rows[..|rows| - 1][j] == rows[j];
    }
  }

  /** What one more open adds to the count of a slot: the 8-bit counter wraps around at 255. */
  function Increment(count: nat): int { if count == 255 then -255 else 1 }

  /** tfs_open finds no handle: all are in use, and none for this slot. */
  ghost predicate TableFull(hs: seq<Handle>, b: nat, k: nat)
    reads hs
  {
    !FreeHandle(hs) && TotalCount(Rows(hs), b, k) == 0
  }

  /** One more open on a live handle. */
  method CountUp(g: Fs, h: Handle, ghost fd: nat)
    requires TableReady(g) && fd < MAX_FDS && h == g.handles[fd] && h.usageCount > 0
    modifies h`usageCount
    ensures TableReady(g) && h.usageCount == old(h.usageCount) + Increment(old(h.usageCount))
    ensures Recounted(old(Rows(g.handles)), Rows(g.handles), h.dirBlk, h.dirItem, Increment(old(h.usageCount)))
  {
    hide TotalCount, Recounted, Rows, TableOk;
    ghost var rows := Rows(g.handles);
    RowsAt(g.handles, fd);
    ghost var r := rows[fd].(count := (rows[fd].count + 1) % 256);
    TableAfterCount(rows, fd, r.count);
    CountReplaced(rows, fd, r);
    h.usageCount := (h.usageCount + 1) % 256;
    SameRows(rows[fd := r], g.handles);
  }

  lemma RowsAt(hs: seq<Handle>, fd: nat)
    requires fd < |hs|
    ensures |Rows(hs)| == |hs| && Rows(hs)[fd] == RowOf(hs[fd])
    ensures forall i :: 0 <= i < |hs| ==> Rows(hs)[i] == RowOf(hs[i])
  {
  }

  /** The first closed handle is initialised from an item. */
  method TakeHandle(g: Fs, h: Handle, k: nat, size: nat, blk: nat, ghost fd: nat)
    requires TableReady(g) && fd < MAX_FDS && h == g.handles[fd] && h.usageCount == 0
    requires forall j :: 0 <= j < fd ==> g.handles[j].usageCount > 0
    requires forall j :: 0 <= j < MAX_FDS && Rows(g.handles)[j].At(g.loadedDirBlk, k) ==> Rows(g.handles)[j].count == 0
    modifies h
    ensures TableReady(g) && Recounted(old(Rows(g.handles)), Rows(g.handles), g.loadedDirBlk, k, 1)
    ensures
      && h.usageCount == 1 && h.dirBlk == g.loadedDirBlk && h.dirItem == k && h.size == size && h.firstBlk == blk
      && h.currBlk == blk && h.currPos == 0
  {
    hide TotalCount, Recounted, Rows, TableOk;
    ghost var rows, r := Rows(g.handles), Row(g.loadedDirBlk, k, 1);
    RowsAt(g.handles, fd);
    TableAfterPlace(rows, fd, r.blk, k);
    CountReplaced(rows, fd, r);
    h.usageCount, h.dirBlk, h.dirItem, h.size, h.firstBlk := 1, g.loadedDirBlk, k, size, blk;
    InitPos(h);
    SameRows(rows[fd := r], g.handles);
  }

  /** The table half of tfs_open: reuses the live handle of the slot, or takes the first closed
      handle and initialises it from the item. A full table is noticed only if what stands behind it
      reads as a count above 0; otherwise that memory would be taken for a handle. */
  method GrabHandle(g: Fs, k: nat, size: nat, blk: nat, beyond: nat) returns (fd: int)
    requires TableReady(g) && g.err == None && (TableFull(g.handles, g.loadedDirBlk, k) ==> beyond > 0)
    modifies g`err, g.handles
    ensures TableReady(g) && -1 <= fd < MAX_FDS
    ensures fd == -1 <==> old(TableFull(g.handles, g.loadedDirBlk, k))
    ensures g.err == if fd == -1 then NoFreeFd else None
    ensures forall i :: 0 <= i < MAX_FDS && i != fd ==> unchanged(g.handles[i])
    ensures fd != -1 ==>
      Recounted(old(Rows(g.handles)), Rows(g.handles), g.loadedDirBlk, k, Increment(old(g.handles[fd].usageCount)))
    ensures fd != -1 ==> var h := g.handles[fd];
      h.dirBlk == g.loadedDirBlk && h.dirItem == k && h.usageCount == old(h.usageCount) + Increment(old(h.usageCount))
    ensures fd != -1 ==> old(g.handles[fd].usageCount) == old(TotalCount(Rows(g.handles), g.loadedDirBlk, k))
    ensures fd != -1 && old(g.handles[fd].usageCount) == 0 ==>
      var h := g.handles[fd]; h.size == size && h.firstBlk == blk && h.currBlk == blk && h.currPos == 0
    ensures fd != -1 && old(g.handles[fd].usageCount) == 0 ==> forall i :: 0 <= i < fd ==>
        old(g.handles[i].usageCount) > 0
    ensures fd != -1 && old(g.handles[fd].usageCount) > 0 ==>
      var h: Handle := g.handles[fd]; unchanged(h`dirBlk, h`dirItem, h`size, h`firstBlk, h`currBlk, h`currPos)
  {
    hide TotalCount, Recounted, Rows, TableOk;
    ghost var rows, b := Rows(g.handles), g.loadedDirBlk;
    fd := LiveHandle(g, k);
    if fd < MAX_FDS {
      var h := g.handles[fd];
      assert rows[fd] == RowOf(h);
      LiveIsTotal(rows, fd);
      CountUp(g, h, fd);
      return;
    }
    var checked;
    fd, checked := ClosedHandle(g, beyond);
    if checked {
      g.err := NoFreeFd;
      return -1;
    }
    TotalRow(rows, b, k);
    TakeHandle(g, g.handles[fd], k, size, blk, fd);
  }

  /** The place on the disk of the current directory's entry n. */
  ghost function SlotBlock(g: Fs, n: Name): nat
    reads g`sh, g`currentDirBlk
  {
    if n in CurSlots(g) && CurSlots(g)[n].i < |CurChain(g)| then CurChain(g)[CurSlots(g)[n].i] else 0
  }

  ghost function SlotItem(g: Fs, n: Name): nat
    reads g`sh, g`currentDirBlk
  {
    if n in CurSlots(g) then CurSlots(g)[n].k else 0
  }

  /** The count that makes tfs_delete and tfs_write_file answer FILE_BUSY is the number of opens
      that were not closed. */
  lemma BusyMeansOpen(g: Fs, n: Name, pend: set<nat>, skip: Detached)
    requires Holding(g, pend, skip) && TableReady(g) && n in CurSlots(g)
    ensures OpenCount(g, n) == TotalCount(Rows(g.handles), SlotBlock(g, n), SlotItem(g, n))
  {
    hide Wf, TableOk;
    SlotOfEntry(g, pend, skip, n);
    UsageIsFirst(g.handles, SlotBlock(g, n), SlotItem(g, n), 0);
    FirstIsTotal(Rows(g.handles), SlotBlock(g, n), SlotItem(g, n), 0);
  }

  /** How often the current directory's entry n is open. */
  ghost function OpenTotal(g: Fs, n: Name): nat
    reads g`sh, g`currentDirBlk, g.handles
  {
    TotalCount(Rows(g.handles), SlotBlock(g, n), SlotItem(g, n))
  }

  /** tfs_open; -1 stands for failure. `beyond` is what stands in memory behind the handle table. */
  method Open(g: Fs, name: CString, beyond: nat, ghost pend: set<nat>, ghost skip: Detached) returns (fd: int)
    requires Holding(g, pend, skip) && TableReady(g)
    requires IsFile(g, Stored(name)) && NoHandle(g, Stored(name)) ==> beyond > 0
    modifies g`disk, g`marked, g`sh, g`err, g`loadedBitmapBlk, g`buf, g`loadedDirBlk, g.bitmap, g.handles
    ensures Holding(g, pend, skip) && TableReady(g)
    ensures g.disk == old(g.disk) && g.sh == old(g.sh) && g.marked == old(g.marked)
    ensures g.err == if old(g.err) == NoDev then NoDev else if name == "" then NoName
                     else if !old(IsFile(g, Stored(name))) then NotExist
                     else if old(NoHandle(g, Stored(name))) then NoFreeFd else None
    ensures -1 <= fd < MAX_FDS && (fd == -1 <==> g.err != None)
    ensures forall i :: 0 <= i < MAX_FDS && i != fd ==> unchanged(g.handles[i])
    ensures fd != -1 ==> old(IsFile(g, Stored(name)))
    ensures fd != -1 ==>
      Recounted(old(Rows(g.handles)), Rows(g.handles), SlotBlock(g, Stored(name)), SlotItem(g, Stored(name)),
                Increment(old(g.handles[fd].usageCount)))
    ensures fd != -1 ==> var h := g.handles[fd];
      && h.dirBlk == SlotBlock(g, Stored(name)) && h.dirItem == SlotItem(g, Stored(name))
      && h.usageCount == old(h.usageCount) + Increment(old(h.usageCount))
      && old(h.usageCount) == old(OpenTotal(g, Stored(name)))
    ensures fd != -1 && old(g.handles[fd].usageCount) == 0 ==> var h, it := g.handles[fd], old(ItemOf(g, Stored(name)));
      h.size == it.size && h.firstBlk == it.blk && h.currBlk == it.blk && h.currPos == 0
    ensures fd != -1 && old(g.handles[fd].usageCount) == 0 ==> forall i :: 0 <= i < fd ==>
        old(g.handles[i].usageCount) > 0
    ensures fd != -1 && old(g.handles[fd].usageCount) > 0 ==>
      var h: Handle := g.handles[fd]; unchanged(h`dirBlk, h`dirItem, h`size, h`firstBlk, h`currBlk, h`currPos)
  {
    hide Holding, Buffered, TreeOf, Lists, Stored, TableOk, Recounted, TotalCount, FreeHandle, Rows, Increment,
      FreeItem, TableFull, SlotBlock, SlotItem, Here, IsFile, ItemOf, TableReady;
    fd := -1;
    if g.err == NoDev {
      return;
    }
    NamedItem(g, Stored(name));
    TableSize(g);
    g.err := None;
    var item;
    ghost var s;
    item, s := LookUp(g, name, pend, skip);
    if g.err != None {
      return;
    }
    if item != Null { BufferedSlot(g, s); }
    if item == Null || g.buf.items[item.slot].typ != File {
      g.err := NotExist;
      return;
    }
    BufferedPlace(g, s, Stored(name));
    fd := GrabHandle(g, item.slot, g.buf.items[item.slot].size, g.buf.items[item.slot].blk, beyond);
  }

  lemma NamedItem(g: Fs, n: Name)
    ensures IsFile(g, n) <==> n in Here(g) && Here(g)[n].typ == File
    ensures n in Here(g) ==> ItemOf(g, n) == Here(g)[n]
  {
  }

  /** Opening the current directory's entry n needs a handle, and there is none. */
  ghost predicate NoHandle(g: Fs, n: Name)
    reads g`sh, g`currentDirBlk, g.handles
  {
    TableFull(g.handles, SlotBlock(g, n), SlotItem(g, n))
  }

  /** The place of the buffered item. */
  lemma BufferedPlace(g: Fs, s: Slot, n: Name)
    requires Buffered(g, s) && n in CurSlots(g) && CurSlots(g)[n] == s
    ensures g.loadedDirBlk == SlotBlock(g, n) && s.k == SlotItem(g, n)
  {
  }

  /** tfs_close. */
  method Close(g: Fs, fd: int)
    requires TableReady(g)
    modifies g`err, g.handles
    ensures TableReady(g)
    ensures old(g.err) == NoDev ==> g.err == NoDev && Rows(g.handles) == old(Rows(g.handles))
    ensures old(g.err) != NoDev ==>
      g.err == if 0 <= fd < MAX_FDS && old(g.handles[fd].usageCount) > 0 then None else InvalFd
    ensures forall i :: 0 <= i < MAX_FDS ==>
      var h: Handle := g.handles[i]; unchanged(h`dirBlk, h`dirItem, h`size, h`firstBlk, h`currBlk, h`currPos)
    ensures forall i :: 0 <= i < MAX_FDS ==>
      g.handles[i].usageCount + (if g.err == None && i == fd then 1 else 0) == old(g.handles[i].usageCount)
    ensures g.err == InvalFd ==> Rows(g.handles) == old(Rows(g.handles))
    ensures g.err == None ==> 0 <= fd < MAX_FDS
    ensures g.err == None ==>
      Recounted(old(Rows(g.handles)), Rows(g.handles), g.handles[fd].dirBlk, g.handles[fd].dirItem, -1)
  {
    ghost var rows := Rows(g.handles);
    if g.err == NoDev {
      return;
    }
    g.err := None;
    if fd < 0 || fd >= MAX_FDS {
      g.err := InvalFd;
      return;
    }
    var h := g.handles[fd];
    if h.usageCount <= 0 {
      g.err := InvalFd;
      return;
    }
    assert rows[fd] == RowOf(h);
    h.usageCount := h.usageCount - 1;
    assert Rows(g.handles) == rows[fd := rows[fd].(count := rows[fd].count - 1)];
    TableAfterCount(rows, fd, rows[fd].count - 1);
    CountReplaced(rows, fd, rows[fd].(count := rows[fd].count - 1));
  }
}
