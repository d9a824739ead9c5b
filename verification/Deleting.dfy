/** tfs_delete while files are open: which handles survive it. */
module Deleting {
  import opened Layout
  import opened Shapes
  import opened Volume
  import opened Chains
  import opened Directory
  import opened Tree
  import opened Entries
  import opened Links
  import opened Mounted
  import opened Detaching
  import opened Delete
  import opened Cursor
  import opened HandleTable
  import opened Desks
  import opened Sessions

  /** Deleting entry n empties the head block of directory h, so that the second block moves. */
  ghost predicate HeadMoves(sh: Shape, h: nat, n: Name)
  {
    h in sh.chains && h in sh.slots && |sh.chains[h]| > 1 && Alone(sh.slots[h], n) && sh.slots[h][n].i == 0
  }

  /** A handle that was opened on the block that moves. */
  ghost predicate Stranded(sh: Shape, h: nat, n: Name, dirBlk: nat)
  {
    HeadMoves(sh, h, n) && dirBlk == sh.chains[h][1]
  }

  /** Where an entry of the cleaned-up directory is afterwards: at the same block, unless that block
      moved into the head's place. */
  lemma PlaceAfter(c: seq<nat>, t: map<Name, Slot>, n: Name, m: Name)
    requires Distinct(c) && |c| > 1 && Alone(t, n) && m in t && m != n && t[n].i < |c| && t[m].i < |c|
    ensures var c', t' := Unlinked(c, t[n].i), Shifted(t - {n}, t[n].i);
      && m in t' && t'[m].i < |c'| && t'[m].k == t[m].k
      && (c'[t'[m].i] == c[t[m].i] <==> !(t[n].i == 0 && t[m].i == 1))
      && (t[n].i == 0 && t[m].i == 1 ==> c'[t'[m].i] == c[0])
      && (c[t[m].i] == c[1] <==> t[m].i == 1)
  {
  }

  /** The same for every directory of the volume. */
  lemma PlacesAfter(sh: Shape, sh': Shape, h: nat, n: Name, x: nat, f: Entry)
    requires OwnOk(sh) && EntryGone(sh, sh', h, n, x) && f != Entry(h, n) && f.dir != x
    requires f.dir in sh.slots && f.dir in sh.chains && f.name in sh.slots[f.dir]
    requires sh.slots[f.dir][f.name].i < |sh.chains[f.dir]| && sh.slots[h][n].i < |sh.chains[h]|
    ensures f.dir in sh'.slots && f.dir in sh'.chains && f.name in sh'.slots[f.dir]
    ensures var s, s' := sh.slots[f.dir][f.name], sh'.slots[f.dir][f.name];
      && s'.i < |sh'.chains[f.dir]| && s'.k == s.k
      && (sh'.chains[f.dir][s'.i] == sh.chains[f.dir][s.i] <==> !Stranded(sh, h, n, sh.chains[f.dir][s.i]))
      && (Stranded(sh, h, n, sh.chains[f.dir][s.i]) ==> f.dir == h && sh'.chains[h][s'.i] == h)
  {
    hide Unlinked, Shifted, Alone;
    assert ChainOwned(sh, h) && ChainOwned(sh, f.dir);
    var c, t, i := sh.chains[h], sh.slots[h], sh.slots[h][n].i;
    assert sh.chains[f.dir][sh.slots[f.dir][f.name].i] in sh.chains[f.dir];
    assert |c| > 1 ==> c[1] in c;
    if f.dir == h && |c| > 1 && Alone(t, n) {
      PlaceAfter(c, t, n, f.name);
    }
  }

  /** The tree after entry e was deleted, along with the directory it led to. */
  ghost function TreeWithout(T: Listings, e: Entry): Listings
    requires e.dir in T && e.name in T[e.dir]
  {
    if T[e.dir][e.name].typ == Dir then DropEntry(T, e) - {T[e.dir][e.name].blk} else DropEntry(T, e)
  }

  lemma OtherEntryKept(T: Listings, e: Entry, f: Entry)
    requires e.dir in T && e.name in T[e.dir] && HasFile(T, f) && f != e && f.dir != T[e.dir][e.name].blk
    ensures HasFile(TreeWithout(T, e), f) && TreeWithout(T, e)[f.dir][f.name] == T[f.dir][f.name]
  {
  }

  lemma RestsOnIff(disk: seq<Block>, sh: Shape, r: Resting, f: Entry)
    ensures RestsOn(disk, sh, r, f) <==>
      && HasFile(TreeOf(disk, sh), f) && AtSlot(sh, f, r.dirBlk, r.dirItem)
      && TreeOf(disk, sh)[f.dir][f.name].blk == r.first && CursorOk(FileChain(sh, r.first), r.blk, r.pos)
  {
    hide TreeOf, CursorOk, FileChain;
  }

  /** Entry e is gone, along with the empty directory it may have led to. */
  ghost predicate EntryDeleted(disk: seq<Block>, sh: Shape, disk': seq<Block>, sh': Shape, e: Entry)
  {
    var T := TreeOf(disk, sh);
    && e.dir in T && e.name in T[e.dir] && EntryGone(sh, sh', e.dir, e.name, T[e.dir][e.name].blk)
    && (T[e.dir][e.name].typ == Dir ==> T[e.dir][e.name].blk in T && T[T[e.dir][e.name].blk] == map[])
    && TreeOf(disk', sh') == TreeWithout(T, e)
  }

  /** A resting handle goes on resting on its file, unless it is stranded. */
  lemma RestAfter(disk: seq<Block>, marked: set<nat>, sh: Shape, disk': seq<Block>, marked': set<nat>, sh': Shape,
                  r: Resting, f: Entry, e: Entry)
    requires Wf(disk, marked, sh, {}, Nothing) && Wf(disk', marked', sh', {}, Nothing) && RestsOn(disk, sh, r, f)
    requires f != e
    requires EntryDeleted(disk, sh, disk', sh', e)
    ensures RestsOn(disk', sh', r, f) <==> !Stranded(sh, e.dir, e.name, r.dirBlk)
    ensures Stranded(sh, e.dir, e.name, r.dirBlk) ==> f.dir == e.dir && AtSlot(sh', f, e.dir, r.dirItem)
  {
    hide Wf, TreeOf, TreeWithout, EntryGone, Stranded, CursorOk, FileChain, RestsOn, HasFile;
    var T: Listings := TreeOf(disk, sh);
    var x := T[e.dir][e.name].blk;
    RestsOnIff(disk, sh, r, f);
    RestsOnIff(disk', sh', r, f);
    WfParts(disk, marked, sh, {}, Nothing);
    SlotInChain(disk, marked, sh, e);
    OtherChain(disk, marked, sh, f, e);
    OtherEntryKept(T, e, f);
    PlacesAfter(sh, sh', e.dir, e.name, x, f);
    SameFileChain(disk, marked, sh, marked', disk', sh', e.dir, e.name, x, r.first);
  }

  lemma SlotInChain(disk: seq<Block>, marked: set<nat>, sh: Shape, e: Entry)
    requires Wf(disk, marked, sh, {}, Nothing) && e.dir in TreeOf(disk, sh) && e.name in TreeOf(disk, sh)[e.dir]
    ensures e.dir in sh.slots && e.dir in sh.chains && e.name in sh.slots[e.dir]
    ensures sh.slots[e.dir][e.name].i < |sh.chains[e.dir]|
  {
    hide RefsOk, DepthOk, MarksOk, FilesOk;
    DirOf(disk, sh, e.dir);
    ListingAt(Lists(disk, sh.chains[e.dir]), sh.slots[e.dir]);
  }

  /** A file entry f leads neither into the chain of another entry e, nor lies in the directory of e's chain. */
  lemma OtherChain(disk: seq<Block>, marked: set<nat>, sh: Shape, f: Entry, e: Entry)
    requires Wf(disk, marked, sh, {}, Nothing) && HasFile(TreeOf(disk, sh), f) && f != e
    requires var T := TreeOf(disk, sh);
      && e.dir in T && e.name in T[e.dir]
      && (T[e.dir][e.name].typ == Dir ==> T[e.dir][e.name].blk in T && T[T[e.dir][e.name].blk] == map[])
    ensures var T := TreeOf(disk, sh); var x, y := T[e.dir][e.name].blk, T[f.dir][f.name].blk;
      f.dir != x && (y != 0 ==> y != x && y in sh.chains && y !in sh.slots && y != e.dir)
  {
    hide OwnOk, DirsOk, FilesOk, DepthOk, MarksOk, TreeOf;
    var T: Listings := TreeOf(disk, sh);
    TreeKeys(disk, sh);
    assert ItemOk(T[e.dir][e.name], e, T.Keys, sh.chains.Keys, sh.up);
    assert ItemOk(T[f.dir][f.name], f, T.Keys, sh.chains.Keys, sh.up);
    RefsHead(T, sh.chains.Keys, sh.up, Nothing);
  }

  lemma SameFileChain(disk: seq<Block>, marked: set<nat>, sh: Shape, marked': set<nat>, disk': seq<Block>, sh': Shape,
                      h: nat, n: Name, x: nat, y: nat)
    requires Wf(disk, marked, sh, {}, Nothing) && Wf(disk', marked', sh', {}, Nothing) && EntryGone(sh, sh', h, n, x)
    requires y != 0 ==> y != x && y in sh.chains && y !in sh.slots && y != h
    ensures FileChain(sh', y) == FileChain(sh, y)
  {
    hide Wf, Unlinked, Shifted, Alone;
    NoChainZero(disk, marked, sh);
    NoChainZero(disk', marked', sh');
  }

  // ----- tfs_delete in a session -----

  /** FILE_BUSY is right in a session: an entry counts as open exactly if a file descriptor is open on it. */
  lemma BusyMeansSeated(g: Fs, open: map<nat, Entry>, n: Name)
    requires Session(g, open) && n in CurSlots(g)
    ensures OpenCount(g, n) > 0 <==> Seated(DeskOf(g, open), Entry(g.currentDirBlk, n))
  {
    hide Wf, TableOk, TotalCount, Rows, RestsOn, Placed, AllFiles;
    SlotOfEntry(g, {}, Nothing, n);
    BusyMeansOpen(g, n, {}, Nothing);
    CountOfSeat(g.disk, g.marked, g.sh, Rests(g.handles), Rows(g.handles), open,
                Entry(g.currentDirBlk, n), SlotBlock(g, n), SlotItem(g, n));
    SeatsAreOpen(g.disk, g.sh, Rests(g.handles), Rows(g.handles), open);
  }

  /** All files but the deleted one are as before. */
  lemma FilesLeft(disk: seq<Block>, marked: set<nat>, sh: Shape, disk': seq<Block>, marked': set<nat>, sh': Shape,
                   e: Entry)
    requires Wf(disk, marked, sh, {}, Nothing) && Wf(disk', marked', sh', {}, Nothing)
    requires EntryDeleted(disk, sh, disk', sh', e)
    requires FilesOk(disk, sh) && FilesOk(disk', sh')
    requires var it := TreeOf(disk, sh)[e.dir][e.name];
      FilesOf(disk', sh') == if it.typ == Dir then FilesOf(disk, sh) else FilesOf(disk, sh) - {it.blk}
    ensures AllFiles(disk', sh') == AllFiles(disk, sh) - {e}
  {
    hide Wf, TreeOf, TreeWithout, EntryGone, BytesAt, AllFiles, FilesOf, FilesOk, HasFile;
    var T: Listings := TreeOf(disk, sh);
    FilesAreChains(disk, sh);
    FilesAreChains(disk', sh');
    NoChainZero(disk, marked, sh);
    NoChainZero(disk', marked', sh');
    forall f
      ensures f in AllFiles(disk', sh') <==> f in AllFiles(disk, sh) && f != e
      ensures f in AllFiles(disk, sh) && f != e ==> AllFiles(disk', sh')[f] == AllFiles(disk, sh)[f]
    {
      FileIn(disk, sh, f);
      FileIn(disk', sh', f);
      OnlyTheseEntries(T, e, f);
      if HasFile(T, f) && f != e {
        OtherChain(disk, marked, sh, f, e);
        OtherEntryKept(T, e, f);
      }
    }
  }

  lemma OnlyTheseEntries(T: Listings, e: Entry, f: Entry)
    requires e.dir in T && e.name in T[e.dir]
    ensures HasFile(TreeWithout(T, e), f) ==> HasFile(T, f) && f != e
  {
  }

  /** The head block that is emptied holds no entry but the deleted one. */
  lemma OnlyInHead(sh: Shape, h: nat, n: Name, f: Entry, k: nat)
    requires OwnOk(sh) && HeadMoves(sh, h, n) && AtSlot(sh, f, h, k)
    ensures f == Entry(h, n)
  {
    assert ChainOwned(sh, h) && ChainOwned(sh, f.dir);
    assert sh.chains[h][0] in sh.chains[h] && sh.chains[f.dir][sh.slots[f.dir][f.name].i] in sh.chains[f.dir];
  }

  /** So no live handle is on it. */
  lemma HeadUncounted(disk: seq<Block>, marked: set<nat>, sh: Shape, rests: seq<Resting>, rows: seq<Row>,
                      open: map<nat, Entry>,
                      h: nat, n: Name, k: nat)
    requires Wf(disk, marked, sh, {}, Nothing) && Placed(disk, sh, rests, rows, open) && TableOk(rows)
    requires HeadMoves(sh, h, n) && Entry(h, n) !in open.Values
    ensures TotalCount(rows, h, k) == 0
  {
    hide OwnOk, DirsOk, FilesOk, RefsOk, DepthOk, MarksOk, TreeOf, TotalCount, TableOk, CursorOk, HeadMoves, AtSlot;
    if TotalCount(rows, h, k) > 0 {
      var i := LiveRow(rows, h, k);
      OnlyInHead(sh, h, n, open[i], k);
    }
  }

  lemma SessionAfter(g: Fs, open: map<nat, Entry>, was: Snapshot, sh0: Shape, rests: seq<Resting>, rows: seq<Row>,
                     e: Entry)
    requires Inv(g) && TableReady(g) && Rests(g.handles) == rests && Rows(g.handles) == rows
    requires Wf(was.disk, was.marked, sh0, {}, Nothing) && Placed(was.disk, sh0, rests, rows, open)
    requires EntryDeleted(was.disk, sh0, g.disk, g.sh, e) && e !in open.Values
    ensures |rests| == MAX_FDS && forall fd :: fd in open ==>
      fd < MAX_FDS && (RestsOn(g.disk, g.sh, rests[fd], open[fd]) <==> !Stranded(sh0, e.dir, e.name, rests[fd].dirBlk))
    ensures Session(g, open) <==> forall fd :: fd in open ==> !Stranded(sh0, e.dir, e.name, rests[fd].dirBlk)
    ensures forall fd :: fd in open && Stranded(sh0, e.dir, e.name, rests[fd].dirBlk) ==>
      open[fd].dir == e.dir && AtSlot(g.sh, open[fd], e.dir, rests[fd].dirItem)
  {
    hide Wf, RestsOn, EntryDeleted, Stranded, AtSlot, TableOk;
    forall fd | fd in open
      ensures RestsOn(g.disk, g.sh, rests[fd], open[fd]) <==> !Stranded(sh0, e.dir, e.name, rests[fd].dirBlk)
      ensures Stranded(sh0, e.dir, e.name, rests[fd].dirBlk) ==>
        open[fd].dir == e.dir && AtSlot(g.sh, open[fd], e.dir, rests[fd].dirItem)
    {
      assert open[fd] in open.Values;
      RestAfter(was.disk, was.marked, sh0, g.disk, g.marked, g.sh, rests[fd], open[fd], e);
    }
  }

  /** A stranded handle is not found any more: its file counts as closed. */
  lemma StrandedUncounted(g: Fs, open: map<nat, Entry>, was: Snapshot, sh0: Shape, rests: seq<Resting>, rows: seq<Row>,
                          n: Name, f: Entry, r: Resting)
    requires Inv(g) && TableReady(g) && Rows(g.handles) == rows
    requires Wf(was.disk, was.marked, sh0, {}, Nothing) && Placed(was.disk, sh0, rests, rows, open)
    requires Entry(g.currentDirBlk, n) !in open.Values && Stranded(sh0, g.currentDirBlk, n, r.dirBlk)
    requires f.dir == g.currentDirBlk && AtSlot(g.sh, f, g.currentDirBlk, r.dirItem)
    ensures OpenCount(g, f.name) == 0
  {
    hide Wf, Placed, TableOk, TotalCount, Rows, HeadMoves;
    BusyMeansOpen(g, f.name, {}, Nothing);
    HeadUncounted(was.disk, was.marked, sh0, rests, rows, open, g.currentDirBlk, n, r.dirItem);
  }

  /** The seats do not depend on the volume. */
  lemma NotSeated(disk: seq<Block>, sh: Shape, rests: seq<Resting>, rows: seq<Row>, open: map<nat, Entry>, k: Desk,
                  e: Entry)
    requires Placed(disk, sh, rests, rows, open) && k.seats == SeatsOf(rests, rows, open)
    ensures Seated(k, e) <==> e in open.Values
    ensures forall fd :: fd in open ==> fd < |rows| == MAX_FDS && rows[fd].count > 0
  {
    hide RestsOn, AllFiles;
    SeatsAreOpen(disk, sh, rests, rows, open);
  }

  /** What a deletion in a session comes to. */
  lemma DeletedInSession(g: Fs, open: map<nat, Entry>, was: Snapshot, sh0: Shape, rests: seq<Resting>,
                         rows: seq<Row>, k: Desk,
                         n: Name)
    requires Inv(g) && TableReady(g) && Rests(g.handles) == rests && Rows(g.handles) == rows
    requires Wf(was.disk, was.marked, sh0, {}, Nothing) && Placed(was.disk, sh0, rests, rows, open)
    requires k == Desk(AllFiles(was.disk, sh0), SeatsOf(rests, rows, open), k.free)
    requires EntryDeleted(was.disk, sh0, g.disk, g.sh, Entry(g.currentDirBlk, n))
    requires !Seated(k, Entry(g.currentDirBlk, n))
    requires FilesOk(was.disk, sh0)
    requires var it := TreeOf(was.disk, sh0)[g.currentDirBlk][n];
      Files(g) == if it.typ == Dir then FilesOf(was.disk, sh0) else FilesOf(was.disk, sh0) - {it.blk}
    ensures |g.handles| == MAX_FDS
    ensures DeskOf(g, open) == Desk(k.files - {Entry(g.currentDirBlk, n)}, k.seats, |FreeBlocks(g)|)
    ensures Session(g, open) <==> forall fd :: fd in open ==> !Stranded(sh0, g.currentDirBlk, n, rests[fd].dirBlk)
    ensures forall fd :: fd in open ==> fd < MAX_FDS && g.handles[fd].usageCount > 0 && Rest(g.handles[fd]) == rests[fd]
    ensures forall fd :: fd in open ==>
      (RestsOn(g.disk, g.sh, rests[fd], open[fd]) <==> !Stranded(sh0, g.currentDirBlk, n, rests[fd].dirBlk))
    ensures forall fd :: fd in open && Stranded(sh0, g.currentDirBlk, n, rests[fd].dirBlk) ==>
      open[fd].dir == g.currentDirBlk && OpenCount(g, open[fd].name) == 0
  {
    hide Wf, RestsOn, EntryDeleted, Stranded, AtSlot, TableReady, AllFiles, FilesOf, FilesOk, TreeOf, Seated,
      OpenCount, Session, Placed, SeatsOf;
    var e := Entry(g.currentDirBlk, n);
    TableIs(g, rests, rows);
    NotSeated(was.disk, sh0, rests, rows, open, k, e);
    WfFilesOk(g.disk, g.marked, g.sh, {}, Nothing);
    FilesLeft(was.disk, was.marked, sh0, g.disk, g.marked, g.sh, e);
    SessionAfter(g, open, was, sh0, rests, rows, e);
    forall fd | fd in open && Stranded(sh0, e.dir, n, rests[fd].dirBlk) ensures OpenCount(g, open[fd].name) == 0 {
      StrandedUncounted(g, open, was, sh0, rests, rows, n, open[fd], rests[fd]);
    }
  }

  lemma TableIs(g: Fs, rests: seq<Resting>, rows: seq<Row>)
    requires TableReady(g) && Rests(g.handles) == rests && Rows(g.handles) == rows
    ensures |g.handles| == |rests| == |rows| == MAX_FDS && TableOk(rows)
    ensures forall fd :: 0 <= fd < MAX_FDS ==> Rest(g.handles[fd]) == rests[fd] && RowOf(g.handles[fd]) == rows[fd]
  {
    hide TableOk;
    assert forall fd :: 0 <= fd < MAX_FDS ==> Rest(g.handles[fd]) == Rests(g.handles)[fd];
    assert forall fd :: 0 <= fd < MAX_FDS ==> RowOf(g.handles[fd]) == Rows(g.handles)[fd];
  }

  /** The book-keeping of tfs_delete in one predicate. */
  lemma SessionUnfolds(g: Fs, open: map<nat, Entry>)
    requires Session(g, open)
    ensures Inv(g) && TableReady(g) && Placed(g.disk, g.sh, Rests(g.handles), Rows(g.handles), open)
    ensures Wf(g.disk, g.marked, g.sh, {}, Nothing) && FilesOk(g.disk, g.sh) && Here(g).Keys == CurSlots(g).Keys
    ensures g.currentDirBlk in Dirs(g) && Here(g) == Dirs(g)[g.currentDirBlk]
    ensures g.currentDirBlk in g.sh.slots && g.currentDirBlk in g.sh.chains
  {
    hide Wf, FilesOk, Placed, TreeOf;
    InDirs(g);
    HereLive(g, {}, Nothing);
    WfFilesOk(g.disk, g.marked, g.sh, {}, Nothing);
  }

  /** The block of a stranded handle is the one that becomes free. */
  lemma StrandedIsFreed(g: Fs, n: Name)
    ensures forall b :: Stranded(g.sh, g.currentDirBlk, n, b) ==> b in UnlinkedBlock(g, n)
  {
  }

  /** tfs_delete while files are open. FILE_BUSY protects exactly the open files. After a deletion
      the session goes on exactly if no handle was opened on the block that moves into the head's
      place; a handle that was is lost: its file counts as closed. */
  method DeleteOpen(g: Fs, name: CString, typ: ItemType, ghost open: map<nat, Entry>)
    requires Session(g, open)
    modifies g`disk, g`marked, g`sh, g`err, g`loadedBitmapBlk, g`buf, g`loadedDirBlk, g.bitmap
    ensures Inv(g) && TableReady(g) && FilesOk(old(g.disk), old(g.sh)) && FilesOk(g.disk, g.sh)
    ensures g.err != None ==> Session(g, open) && DeskOf(g, open) == old(DeskOf(g, open)) && Dirs(g) == old(Dirs(g))
    ensures g.err != None ==> g.disk == old(g.disk) && g.sh == old(g.sh) && g.marked == old(g.marked)
    // the errors, in the order of the code
    ensures old(g.err) == NoDev ==> g.err == NoDev
    ensures old(g.err) != NoDev ==> (g.err == NoName <==> name == "")
    ensures old(g.err) != NoDev && name != "" ==>
      (g.err == NotExist <==> !(Stored(name) in old(Here(g)) && typ in {Free, old(Here(g))[Stored(name)].typ}))
    ensures old(g.err) != NoDev && name != "" && g.err != NotExist ==>
      (g.err == FileBusy <==> old(Seated(DeskOf(g, open), Entry(g.currentDirBlk, Stored(name)))))
    ensures old(g.err) != NoDev && name != "" && g.err != NotExist && g.err != FileBusy ==>
      var it := old(Here(g))[Stored(name)];
      && (it.typ == Dir ==> it.blk in old(Dirs(g)))
      && g.err == (if it.typ == Dir && old(Dirs(g))[it.blk] != map[] then NotEmpty else None)
    // success: this entry, its directory if it led to one, and exactly their blocks
    ensures g.err == None ==> Stored(name) in old(Here(g)) && g.currentDirBlk in old(Dirs(g))
    ensures g.err == None ==>
      var it, e := old(Here(g))[Stored(name)], Entry(g.currentDirBlk, Stored(name));
      && Dirs(g) == (if it.typ == Dir then DropEntry(old(Dirs(g)), e) - {it.blk} else DropEntry(old(Dirs(g)), e))
      && Files(g) == (if it.typ == Dir then old(Files(g)) else old(Files(g)) - {it.blk})
      && FreeBlocks(g) ==
           old(FreeBlocks(g)) + Elems(FileChain(old(g.sh), it.blk)) + old(UnlinkedBlock(g, Stored(name)))
    ensures g.err == None ==> var e, k := Entry(g.currentDirBlk, Stored(name)), old(DeskOf(g, open));
      DeskOf(g, open) == Desk(k.files - {e}, k.seats, |FreeBlocks(g)|)
    ensures g.err == None ==> var n, sh0 := Stored(name), old(g.sh);
      && |g.handles| == MAX_FDS && (forall fd :: fd in open ==> fd < MAX_FDS && g.handles[fd].usageCount > 0)
      && (Session(g, open) <==> forall fd :: fd in open ==> !Stranded(sh0, g.currentDirBlk, n, g.handles[fd].dirBlk))
      && (forall fd :: fd in open ==>
            (RestsOn(g.disk, g.sh, Rest(g.handles[fd]), open[fd]) <==>
               !Stranded(sh0, g.currentDirBlk, n, g.handles[fd].dirBlk)))
      && (forall fd :: fd in open && Stranded(sh0, g.currentDirBlk, n, g.handles[fd].dirBlk) ==>
            && open[fd].dir == g.currentDirBlk && OpenCount(g, open[fd].name) == 0
            && g.handles[fd].dirBlk in FreeBlocks(g))
  {
    hide Holding, Wf, TreeOf, FilesOf, AllFiles, RestsOn, Placed, TableReady, TableOk, Rows, SeatsOf, OpenCount,
      EntryGone, Stranded, AtSlot, Stored, FilesOk, FileChain, UnlinkedBlock, Seated, DropEntry, FreeBlocks, Elems,
      Here, BitmapsOn;
    ghost var n, was, sh0, rests, rows := Stored(name), Now(g), g.sh, Rests(g.handles), Rows(g.handles);
    ghost var T: Listings, e := Dirs(g), Entry(g.currentDirBlk, Stored(name));
    ghost var k := DeskOf(g, open);
    SessionUnfolds(g, open);
    if n in CurSlots(g) { BusyMeansSeated(g, open, n); }
    StrandedIsFreed(g, n);
    DeleteEntry(g, name, typ);
    SameRows(rows, g.handles);
    assert Rests(g.handles) == rests;
    FilesOkNow(g);
    if g.err == None {
      DeletedInSession(g, open, was, sh0, rests, rows, k, n);
    } else {
      SessionMade(g, open);
    }
  }
}
