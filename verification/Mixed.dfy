/** Any interleaving of namespace operations and calls on open files refines Worlds. */
module Mixed {
  import opened Layout
  import opened Bits
  import opened Shapes
  import opened Volume
  import opened Chains
  import opened Tree
  import opened Links
  import opened Mounted
  import opened Detaching
  import opened Delete
  import opened Format
  import opened Cursor
  import opened Navigation
  import opened HandleTable
  import opened Spaces
  import opened SpaceSteps
  import opened Desks
  import opened Sessions
  import opened Deleting
  import opened Worlds

  /** What a session means. */
  ghost function WorldOf(g: Fs, open: map<nat, Entry>): World
    requires FilesOk(g.disk, g.sh)
    reads g`disk, g`marked, g`sh, g`currentDirBlk, g`err, g.handles
  {
    World(SpaceOf(g), SeatsOf(Rests(g.handles), Rows(g.handles), open))
  }

  /** The two readings of the files of a volume agree. */
  lemma SameDesk(g: Fs, open: map<nat, Entry>)
    requires FilesOk(g.disk, g.sh)
    ensures DeskIn(WorldOf(g, open)) == DeskOf(g, open)
  {
    hide TreeOf, FilesOk, FilesOf, BytesAt, SlotCost, BusyNames, FreeBlocks, SeatsOf, AllFiles, FilesByEntry;
    var s := SpaceOf(g);
    FilesAreChains(g.disk, g.sh);
    forall f
      ensures f in AllFiles(g.disk, g.sh) <==> f in FilesByEntry(s)
      ensures f in FilesByEntry(s) ==> AllFiles(g.disk, g.sh)[f] == FilesByEntry(s)[f]
    {
      FileIn(g.disk, g.sh, f);
      EntryFile(s, f);
    }
  }

  lemma EntryFile(s: Space, f: Entry)
    ensures f in FilesByEntry(s) <==> HasFile(s.dirs, f)
    ensures HasFile(s.dirs, f) ==>
      FilesByEntry(s)[f] == FlatFile(BytesOf(s, s.dirs[f.dir][f.name].blk), s.dirs[f.dir][f.name].size)
  {
    hide BytesOf;
  }

  // ----- a session goes on -----

  /** The files other than e have their items. */
  ghost predicate OthersStay(T: Listings, T': Listings, e: Entry)
  {
    forall f {:trigger HasFile(T, f)} :: HasFile(T, f) && f != e ==>
        HasFile(T', f) && T'[f.dir][f.name] == T[f.dir][f.name]
  }

  /** A handle that rests on another file goes on resting on it. */
  lemma RestKept(disk: seq<Block>, marked: set<nat>, sh: Shape, disk': seq<Block>, marked': set<nat>, sh': Shape,
                 r: Resting, f: Entry, e: Entry, x: nat)
    requires Wf(disk, marked, sh, {}, Nothing) && Wf(disk', marked', sh', {}, Nothing)
    requires RestsOn(disk, sh, r, f) && f != e && Kept(sh, sh', {e}, {x})
    requires OthersStay(TreeOf(disk, sh), TreeOf(disk', sh'), e)
    requires x != 0 ==> HasFile(TreeOf(disk, sh), e) && TreeOf(disk, sh)[e.dir][e.name].blk == x
    ensures RestsOn(disk', sh', r, f)
  {
    hide Wf, TreeOf, CursorOk;
    EntryOf(disk, sh, r, f);
    NoChainZero(disk, marked, sh);
    NoChainZero(disk', marked', sh');
    HeadInBooks(disk, marked, sh, f);
    if x != 0 { OtherHeads(disk, marked, sh, f, e); }
  }

  /** The session goes on after an operation that was about entry e only. */
  lemma GoesOn(g: Fs, open: map<nat, Entry>, was: Snapshot, sh0: Shape, rests: seq<Resting>, rows: seq<Row>,
               e: Entry, x: nat)
    requires Inv(g) && TableReady(g) && Rests(g.handles) == rests && Rows(g.handles) == rows
    requires Wf(was.disk, was.marked, sh0, {}, Nothing) && Placed(was.disk, sh0, rests, rows, open)
    requires Kept(sh0, g.sh, {e}, {x}) && e !in open.Values && OthersStay(TreeOf(was.disk, sh0), Dirs(g), e)
    requires x != 0 ==> HasFile(TreeOf(was.disk, sh0), e) && TreeOf(was.disk, sh0)[e.dir][e.name].blk == x
    ensures Session(g, open)
  {
    hide Wf, TreeOf, RestsOn, Kept, OthersStay, TableOk, HasFile;
    forall fd | fd in open ensures RestsOn(g.disk, g.sh, rests[fd], open[fd]) {
      assert open[fd] in open.Values;
      RestKept(was.disk, was.marked, sh0, g.disk, g.marked, g.sh, rests[fd], open[fd], e, x);
    }
  }

  /** Creating, touching and writing under a name leave the other files alone. */
  lemma NewEntryStays(T: Listings, e: Entry, it: Item, x: nat)
    requires e.dir in T
    ensures OthersStay(T, T, e) && OthersStay(T, PutEntry(T, e, it), e)
    ensures x !in T ==> OthersStay(T, PutEntry(T, e, it)[x := map[]], e)
  {
  }

  lemma StepStays(s: Space, op: Op, s': Space)
    requires Steps(s, op, s') && s.at in s.dirs && (op.CreateDirOp? || op.TouchOp? || op.WriteFileOp?)
    ensures OthersStay(s.dirs, s'.dirs, Entry(s.at, Stored(op.name)))
  {
    hide OthersStay, PutEntry, Stored;
    var e := Entry(s.at, Stored(op.name));
    NewEntryStays(s.dirs, e, FreeItem(), 0);
    match op {
      case CreateDirOp(name) =>
        if s'.err == None {
          var x :| MadeDir(s, s', Stored(name), x);
          NewEntryStays(s.dirs, e, Item(Dir, x, 0, e.name), x);
        }
      case TouchOp(name) =>
        NewEntryStays(s.dirs, e, Item(File, 0, 0, e.name), 0);
      case WriteFileOp(name, data, _) =>
        if s'.err == None || (s'.err == DiskFull && RoomAt(s, e.name) > 0) {
          var c :| Wrote(s, s', e.name, data, c);
          NewEntryStays(s.dirs, e, Item(File, HeadOf(c), |data|, e.name), 0);
        }
      case _ =>
    }
  }

  /** Nothing was moved at all. */
  lemma GoesOnQuietly(g: Fs, open: map<nat, Entry>, was: Snapshot, sh0: Shape, rests: seq<Resting>, rows: seq<Row>)
    requires Inv(g) && TableReady(g) && Rests(g.handles) == rests && Rows(g.handles) == rows
    requires Wf(was.disk, was.marked, sh0, {}, Nothing) && Placed(was.disk, sh0, rests, rows, open)
    requires Kept(sh0, g.sh, {}, {}) && Dirs(g) == TreeOf(was.disk, sh0)
    ensures Session(g, open)
  {
    hide Wf, TreeOf, Kept, RestsOn, TableOk;
    var e := Entry(0, []);
    TreeHasNoZero(was.disk, was.marked, sh0);
    forall fd | fd in open ensures open[fd] != e {
      EntryOf(was.disk, sh0, rests[fd], open[fd]);
    }
    KeptMore(sh0, g.sh, {}, {}, {e}, {0});
    GoesOn(g, open, was, sh0, rests, rows, e, 0);
  }

  lemma TreeHasNoZero(disk: seq<Block>, marked: set<nat>, sh: Shape)
    requires Wf(disk, marked, sh, {}, Nothing)
    ensures 0 !in TreeOf(disk, sh)
  {
    hide Wf;
    NoChainZero(disk, marked, sh);
  }

  /** Who sits where, before an operation. */
  lemma SeatedHere(g: Fs, open: map<nat, Entry>, n: Name)
    requires Session(g, open) && FilesOk(g.disk, g.sh)
    ensures var e := Entry(g.currentDirBlk, n);
      && (n in BusyNames(g) <==> e in open.Values) && (Seated(DeskOf(g, open), e) <==> e in open.Values)
      && (e in open.Values ==> n in Here(g) && Here(g)[n].typ == File)
  {
    hide Wf, TreeOf, RestsOn, TableOk, AllFiles, FilesOk, OpenCount, Placed, Here;
    SessionUnfolds(g, open);
    NotSeated(g.disk, g.sh, Rests(g.handles), Rows(g.handles), open, DeskOf(g, open), Entry(g.currentDirBlk, n));
    BusyName(g, n);
    if n in CurSlots(g) { BusyMeansSeated(g, open, n); }
    if Entry(g.currentDirBlk, n) in open.Values { SeatIsFile(g, open, n); }
  }

  lemma SeatIsFile(g: Fs, open: map<nat, Entry>, n: Name)
    requires Session(g, open) && Entry(g.currentDirBlk, n) in open.Values
    ensures n in Here(g) && Here(g)[n].typ == File && n in CurSlots(g)
  {
    hide Wf, TreeOf, TableOk, CursorOk, Placed;
    var fd :| fd in open && open[fd] == Entry(g.currentDirBlk, n);
    PlacedParts(g.disk, g.sh, Rests(g.handles), Rows(g.handles), open);
    EntryOf(g.disk, g.sh, Rests(g.handles)[fd], open[fd]);
    InDirs(g);
  }

  // ----- namespace operations in a session -----

  /** The operation found nothing to do or was refused. */
  ghost predicate Quiet(s: Space, op: Op, err: Error)
    requires op.CreateDirOp? || op.TouchOp? || op.WriteFileOp?
  {
    match op
    case CreateDirOp(_) => err in {NoName, FileExist}
    case TouchOp(name) => err == NoName || Stored(name) in Around(s)
    case _ => err in {NoName, FileExist, FileBusy}
  }

  lemma QuietOrNew(s: Space, op: Op, s': Space)
    requires Steps(s, op, s') && (op.CreateDirOp? || op.TouchOp? || op.WriteFileOp?)
    ensures var n := Stored(op.name);
      && (Quiet(s, op, s'.err) ==> s'.dirs == s.dirs)
      && (!Quiet(s, op, s'.err) ==>
            n !in Around(s) || (op.WriteFileOp? && n in s.dirs[s.at] && Around(s)[n].typ == File && n !in s.busy))
  {
    hide Stored;
  }

  lemma MadeGoesOn(g: Fs, open: map<nat, Entry>, was: Snapshot, sh0: Shape, rests: seq<Resting>, rows: seq<Row>,
                   s: Space,
                   op: Op, x: nat)
    requires Inv(g) && FilesOk(g.disk, g.sh) && TableReady(g) && Rests(g.handles) == rests && Rows(g.handles) == rows
    requires Wf(was.disk, was.marked, sh0, {}, Nothing) && Placed(was.disk, sh0, rests, rows, open)
    requires op.CreateDirOp? || op.TouchOp? || op.WriteFileOp?
    requires Steps(s, op, SpaceOf(g)) && s.dirs == TreeOf(was.disk, sh0) && s.at in s.dirs
    requires var n := Stored(op.name); var e := Entry(s.at, n);
      && Kept(sh0, g.sh, {e}, {x}) && x == (if op.WriteFileOp? then HeadAt(s, n) else 0)
      && (e in open.Values ==> n in Around(s) && n in s.busy)
    requires Quiet(s, op, g.err) ==> Kept(sh0, g.sh, {}, {})
    ensures Session(g, open)
  {
    hide Wf, TreeOf, RestsOn, TableOk, Kept, FilesOk, FilesOf, OthersStay, Steps, Stored, Session, Placed, SpaceOf,
      Quiet;
    SpaceFields(g);
    QuietOrNew(s, op, SpaceOf(g));
    if Quiet(s, op, g.err) {
      GoesOnQuietly(g, open, was, sh0, rests, rows);
    } else {
      StepStays(s, op, SpaceOf(g));
      GoesOn(g, open, was, sh0, rests, rows, Entry(s.at, Stored(op.name)), x);
    }
  }

  /** tfs_create_dir, tfs_touch and tfs_write_file. */
  method MakeOp(g: Fs, op: Op, ghost open: map<nat, Entry>)
    requires Session(g, open) && g.err != NoDev && FilesOk(g.disk, g.sh)
    requires (op.WriteFileOp? && |op.data| < LIMIT) || op.CreateDirOp? || op.TouchOp?
    modifies g`disk, g`marked, g`sh, g`err, g`loadedBitmapBlk, g`buf, g`loadedDirBlk, g.bitmap
    ensures Session(g, open) && FilesOk(g.disk, g.sh) && g.err != NoDev && Steps(old(SpaceOf(g)), op, SpaceOf(g))
  {
    hide Holding, Wf, TreeOf, RestsOn, TableOk, TableReady, Placed, FilesOk, FilesOf, Kept, SlotCost, BusyNames,
      FreeBlocks, Session,
      OthersStay, CreatesDir, Touches, WritesFile, Stored, Rests, Rows, Here, Around, SpaceOf;
    ghost var n := Stored(op.name);
    ghost var e, was, sh0, rests, rows := Entry(g.currentDirBlk, n), Now(g), g.sh, Rests(g.handles), Rows(g.handles);
    ghost var s := SpaceOf(g);
    SessionUnfolds(g, open);
    SeatedHere(g, open, n);
    SpaceFields(g);
    ghost var x := 0;
    match op {
      case CreateDirOp(name) =>
        StepCreate(g, name);
        KeptMore(sh0, g.sh, {e}, {}, {e}, {x});
      case TouchOp(name) =>
        StepTouch(g, name);
        KeptMore(sh0, g.sh, {e}, {}, {e}, {x});
      case WriteFileOp(name, data, overwrite) =>
        x := HeadAt(s, n);
        StepWrite(g, name, data, overwrite);
    }
    SpaceFields(g);
    assert Rests(g.handles) == rests && Rows(g.handles) == rows;
    MadeGoesOn(g, open, was, sh0, rests, rows, s, op, x);
  }

  lemma SpaceFields(g: Fs)
    requires FilesOk(g.disk, g.sh)
    ensures var s := SpaceOf(g);
      && s.dirs == Dirs(g) && s.files == Files(g) && s.free == |FreeBlocks(g)| && s.busy == BusyNames(g)
      && s.at == g.currentDirBlk && s.err == g.err
    ensures Around(SpaceOf(g)) == Here(g)
  {
    hide TreeOf, FilesOk, FilesOf, SlotCost, BusyNames, FreeBlocks;
  }

  // ----- renaming under open handles -----

  ghost function MovedEntry(f: Entry, e: Entry, m: Entry): Entry { if f == e then m else f }

  lemma RenameStays(T: Listings, e: Entry, m: Name)
    requires e.dir in T && e.name in T[e.dir] && m !in T[e.dir]
    ensures OthersStay(T, RenamedListings(T, e, m), e)
    ensures HasFile(T, e) ==> var T', e' := RenamedListings(T, e, m), Entry(e.dir, m);
      HasFile(T', e') && T'[e'.dir][e'.name].blk == T[e.dir][e.name].blk
  {
  }

  /** The handle on the renamed file rests on it under the new name. */
  lemma RenamedRests(disk: seq<Block>, marked: set<nat>, sh: Shape, disk': seq<Block>, marked': set<nat>, sh': Shape,
                     r: Resting, e: Entry, m: Entry)
    requires Wf(disk, marked, sh, {}, Nothing) && Wf(disk', marked', sh', {}, Nothing)
    requires RestsOn(disk, sh, r, e) && Kept(sh, sh', {e}, {})
    requires HasFile(TreeOf(disk', sh'), m) && TreeOf(disk', sh')[m.dir][m.name].blk == r.first && m.dir == e.dir
    requires m.dir in sh'.slots && m.name in sh'.slots[m.dir] && e.dir in sh.slots && e.name in sh.slots[e.dir]
    requires sh'.slots[m.dir][m.name] == sh.slots[e.dir][e.name]
    requires m.dir in sh'.chains && e.dir in sh.chains && sh'.chains[m.dir] == sh.chains[e.dir]
    ensures RestsOn(disk', sh', r, m)
  {
    hide Wf, TreeOf, CursorOk, PrefixOf;
    EntryOf(disk, sh, r, e);
    NoChainZero(disk, marked, sh);
    NoChainZero(disk', marked', sh');
    HeadInBooks(disk, marked, sh, e);
  }

  /** tfs_rename in a session: an open file stays open under its new name. */
  method RenameOpen(g: Fs, from: CString, to: CString, ghost open: map<nat, Entry>)
      returns (ghost open': map<nat, Entry>)
    requires Session(g, open) && g.err != NoDev && FilesOk(g.disk, g.sh)
    modifies g`disk, g`marked, g`sh, g`err, g`loadedBitmapBlk, g`buf, g`loadedDirBlk, g.bitmap
    ensures Session(g, open') && FilesOk(g.disk, g.sh) && g.err != NoDev
    ensures Steps(old(SpaceOf(g)), RenameOp(from, to), SpaceOf(g))
    ensures WorldOf(g, open').seats == SeatsAfter(old(WorldOf(g, open)), RenameOp(from, to), g.err)
  {
    hide Holding, Wf, TreeOf, RestsOn, TableOk, TableReady, Placed, FilesOk, FilesOf, Kept, SlotCost, BusyNames,
      FreeBlocks, Session,
      OthersStay, Stored, Rests, Rows, Here, Around, SpaceOf, SeatsOf, RenamedListings;
    ghost var e, m := Entry(g.currentDirBlk, Stored(from)), Entry(g.currentDirBlk, Stored(to));
    ghost var was, sh0, rests, rows := Now(g), g.sh, Rests(g.handles), Rows(g.handles);
    ghost var s := SpaceOf(g);
    SessionUnfolds(g, open);
    SpaceFields(g);
    StepRename(g, from, to);
    SpaceFields(g);
    assert Rests(g.handles) == rests && Rows(g.handles) == rows;
    open' := open;
    if g.err != None {
      KeptSelf(g.sh, {}, {});
      GoesOnQuietly(g, open, was, sh0, rests, rows);
      return;
    }
    open' := map fd | fd in open :: MovedEntry(open[fd], e, m);
    RenamedGoesOn(g, open, was, sh0, rests, rows, e, m);
  }

  lemma RenamedGoesOn(g: Fs, open: map<nat, Entry>, was: Snapshot, sh0: Shape, rests: seq<Resting>, rows: seq<Row>,
                      e: Entry,
                      m: Entry)
    requires Inv(g) && TableReady(g) && Rests(g.handles) == rests && Rows(g.handles) == rows
    requires Wf(was.disk, was.marked, sh0, {}, Nothing) && Placed(was.disk, sh0, rests, rows, open)
    requires Kept(sh0, g.sh, {e}, {}) && e.dir == m.dir == g.currentDirBlk
    requires var T := TreeOf(was.disk, sh0);
      e.dir in T && e.name in T[e.dir] && m.name !in T[e.dir] && Dirs(g) == RenamedListings(T, e, m.name)
    requires e.dir in sh0.slots && e.name in sh0.slots[e.dir] && e.dir in sh0.chains
    requires m.name in CurSlots(g) && CurSlots(g)[m.name] == sh0.slots[e.dir][e.name]
    requires CurChain(g) == sh0.chains[e.dir]
    ensures Session(g, map fd | fd in open :: MovedEntry(open[fd], e, m))
    ensures SeatsOf(rests, rows, map fd | fd in open :: MovedEntry(open[fd], e, m)) ==
      map fd | fd in SeatsOf(rests, rows, open) :: Moved(SeatsOf(rests, rows, open)[fd], e, m)
  {
    hide Wf, TreeOf, RestsOn, TableOk, Kept, OthersStay, HasFile, RenamedListings;
    RenameStays(TreeOf(was.disk, sh0), e, m.name);
    KeptMore(sh0, g.sh, {e}, {}, {e}, {0});
    forall fd | fd in open ensures RestsOn(g.disk, g.sh, rests[fd], MovedEntry(open[fd], e, m)) {
      EntryOf(was.disk, sh0, rests[fd], open[fd]);
      if open[fd] == e {
        RenamedRests(was.disk, was.marked, sh0, g.disk, g.marked, g.sh, rests[fd], e, m);
      } else {
        RestKept(was.disk, was.marked, sh0, g.disk, g.marked, g.sh, rests[fd], open[fd], e, 0);
      }
    }
  }

  // ----- moving about, and counting -----

  /** The change_dir calls and travel_path. */
  method MoveOp(g: Fs, op: Op, ghost open: map<nat, Entry>)
    requires Session(g, open) && g.err != NoDev && FilesOk(g.disk, g.sh)
    requires op.ChangeDirOp? || op.ParentOp? || op.RootOp? || op.WalkOp?
    modifies g`err, g`currentDirBlk, g`disk, g`marked, g`sh, g`loadedBitmapBlk, g`buf, g`loadedDirBlk, g.bitmap
    ensures Session(g, open) && FilesOk(g.disk, g.sh) && g.err != NoDev && Steps(old(SpaceOf(g)), op, SpaceOf(g))
  {
    hide Holding, Wf, TreeOf, RestsOn, TableOk, TableReady, Placed, FilesOk, FilesOf, SlotCost, BusyNames, FreeBlocks,
      Enters, Leaves,
      Travels, Stored, Rests, Rows;
    match op {
      case ChangeDirOp(name) =>
        StepEnter(g, name);
      case ParentOp =>
        StepLeave(g);
      case RootOp =>
        ChangeDirRoot(g);
      case WalkOp(path) =>
        StepWalk(g, path);
      case _ =>
    }
  }

  // ----- deleting under open handles -----

  /** Some live handle stands on a block that is not marked as used. */
  ghost predicate StrayHandle(g: Fs)
    reads g`marked, g.handles
  {
    exists fd :: 0 <= fd < |g.handles| && g.handles[fd].usageCount > 0 && g.handles[fd].dirBlk !in g.marked
  }

  /** A look at the bitmap tells whether there is one. */
  method LooksStray(g: Fs) returns (stray: bool)
    requires g.Coherent() && forall fd :: 0 <= fd < |g.handles| && g.handles[fd].usageCount > 0 ==>
        g.handles[fd].dirBlk < g.blkCount
    ensures stray <==> StrayHandle(g)
  {
    hide BitmapsOn;
    stray := false;
    var fd := 0;
    while fd < |g.handles|
      invariant fd <= |g.handles|
      invariant stray <==> exists i :: 0 <= i < fd && g.handles[i].usageCount > 0 && g.handles[i].dirBlk !in g.marked
    {
      if g.handles[fd].usageCount > 0 {
        var b := g.handles[fd].dirBlk;
        MarkOf(g.disk, g.marked, b);
        if !Bit(g.disk[Home(b)].bytes, b % BITMAP_COUNT) {
          stray := true;
        }
      }
      fd := fd + 1;
    }
  }

  lemma MarkOf(disk: seq<Block>, marked: set<nat>, b: nat)
    requires BitmapsOn(disk, marked) && b < |disk|
    ensures Home(b) < |disk| && IsBitmap(disk[Home(b)]) && (b in marked <==> Bit(disk[Home(b)].bytes, b % BITMAP_COUNT))
  {
    assert b in marked <==> MarkedOn(disk, b);
  }

  /** The place of a resting handle is a block in use. */
  lemma RestMarked(disk: seq<Block>, marked: set<nat>, sh: Shape, r: Resting, f: Entry)
    requires Wf(disk, marked, sh, {}, Nothing) && RestsOn(disk, sh, r, f)
    ensures r.dirBlk in marked && r.dirBlk < |disk|
  {
    hide DirsOk, FilesOk, RefsOk, DepthOk, TreeOf, CursorOk;
    assert ChainOwned(sh, f.dir);
    assert r.dirBlk in sh.chains[f.dir];
    assert Usable(r.dirBlk, |disk|);
  }

  lemma PlacesMarked(g: Fs, open: map<nat, Entry>)
    requires Session(g, open)
    ensures |g.handles| == MAX_FDS && !StrayHandle(g)
    ensures forall fd :: 0 <= fd < MAX_FDS && g.handles[fd].usageCount > 0 ==> fd in open
    ensures forall fd :: fd in open ==>
      && fd < MAX_FDS && g.handles[fd].usageCount > 0
      && g.handles[fd].dirBlk < g.blkCount && g.handles[fd].dirBlk in g.marked
  {
    hide Wf, RestsOn, TableOk;
    PlacedParts(g.disk, g.sh, Rests(g.handles), Rows(g.handles), open);
    forall fd | fd in open
      ensures fd < MAX_FDS && g.handles[fd].usageCount > 0 && g.handles[fd].dirBlk < g.blkCount
      ensures g.handles[fd].dirBlk in g.marked
    {
      assert Rests(g.handles)[fd] == Rest(g.handles[fd]) && Rows(g.handles)[fd] == RowOf(g.handles[fd]);
      RestMarked(g.disk, g.marked, g.sh, Rests(g.handles)[fd], open[fd]);
    }
  }

  /** What a deletion of entry n of the current directory, with the books sh0 before, left of the handles. */
  ghost predicate AfterDeletion(g: Fs, open: map<nat, Entry>, sh0: Shape, n: Name)
    reads g`disk, g`marked, g`sh, g`currentDirBlk, g`lastBitmapBlk, g`lastBitmapLen, g`loadedBitmapBlk, g.bitmap
    reads g.handles
  {
    && |g.handles| == MAX_FDS && (forall fd :: fd in open ==> fd < MAX_FDS && g.handles[fd].usageCount > 0)
    && (Session(g, open) <==> forall fd :: fd in open ==> !Stranded(sh0, g.currentDirBlk, n, g.handles[fd].dirBlk))
    && (forall fd :: fd in open ==>
          (RestsOn(g.disk, g.sh, Rest(g.handles[fd]), open[fd]) <==>
             !Stranded(sh0, g.currentDirBlk, n, g.handles[fd].dirBlk)))
    && (forall fd :: fd in open && Stranded(sh0, g.currentDirBlk, n, g.handles[fd].dirBlk) ==>
          open[fd].dir == g.currentDirBlk && OpenCount(g, open[fd].name) == 0 && g.handles[fd].dirBlk in FreeBlocks(g))
  }

  /** tfs_delete in a session, for the tree and for the handles. */
  method DeleteBoth(g: Fs, name: CString, typ: ItemType, ghost open: map<nat, Entry>)
    requires Session(g, open) && g.err != NoDev && FilesOk(g.disk, g.sh)
    modifies g`disk, g`marked, g`sh, g`err, g`loadedBitmapBlk, g`buf, g`loadedDirBlk, g.bitmap
    ensures Inv(g) && TableReady(g) && FilesOk(g.disk, g.sh) && g.err != NoDev
    ensures Steps(old(SpaceOf(g)), DeleteOp(name, typ), SpaceOf(g))
    ensures if g.err == None then AfterDeletion(g, open, old(g.sh), Stored(name)) else Session(g, open)
  {
    hide Holding, Wf, TreeOf, RestsOn, TableOk, TableReady, Placed, FilesOk, FilesOf, SlotCost, BusyNames, FreeBlocks,
      Session, Stored, Rests, Rows, Here, Around, SpaceOf, SeatsOf, DropEntry, Deletes, BlocksOf, Stranded, OpenCount,
      FileChain, UnlinkedBlock, Elems, AllFiles, Seated, DeskOf, BitmapsOn, Steps;
    ghost var s, n := SpaceOf(g), Stored(name);
    SpaceFields(g);
    SessionUnfolds(g, open);
    SeatedHere(g, open, n);
    FreedCount(g, n);
    DeleteOpen(g, name, typ, open);
    SpaceFields(g);
    DeletedAs(s, name, typ, SpaceOf(g));
    DeleteSteps(s, name, typ, SpaceOf(g));
  }

  /** tfs_delete in a session. The session is over exactly if a handle was stranded, which shows in
      the bitmap. */
  method DeleteAct(g: Fs, name: CString, typ: ItemType, ghost open: map<nat, Entry>) returns (stray: bool)
    requires Session(g, open) && g.err != NoDev && FilesOk(g.disk, g.sh)
    modifies g`disk, g`marked, g`sh, g`err, g`loadedBitmapBlk, g`buf, g`loadedDirBlk, g.bitmap
    ensures Inv(g) && TableReady(g) && FilesOk(g.disk, g.sh) && g.err != NoDev
    ensures Steps(old(SpaceOf(g)), DeleteOp(name, typ), SpaceOf(g))
    ensures Session(g, open) <==> !stray
    ensures stray ==> g.err == None && LostHandle(g, open)
  {
    hide Holding, TableReady, FilesOk, Session, Stored, SpaceOf, Steps, LostHandle, StrayHandle, AfterDeletion,
      BitmapsOn;
    PlacesMarked(g, open);
    ghost var sh0 := g.sh;
    DeleteBoth(g, name, typ, open);
    FilesOkNow(g);
    assert forall fd :: 0 <= fd < MAX_FDS && g.handles[fd].usageCount > 0 ==> fd in open;
    stray := LooksStray(g);
    if g.err == None {
      StrayExactly(g, open, sh0, Stored(name));
    } else {
      PlacesMarked(g, open);
    }
  }

  lemma DeleteSteps(s: Space, name: CString, typ: ItemType, s': Space)
    requires Deletes(s, name, typ, s')
    ensures Steps(s, DeleteOp(name, typ), s')
  {
    hide Deletes;
  }

  lemma StrayExactly(g: Fs, open: map<nat, Entry>, sh0: Shape, n: Name)
    requires Inv(g) && |g.handles| == MAX_FDS && AfterDeletion(g, open, sh0, n)
    requires forall fd :: 0 <= fd < MAX_FDS && g.handles[fd].usageCount > 0 ==> fd in open
    ensures StrayHandle(g) <==> !Session(g, open)
    ensures StrayHandle(g) ==> LostHandle(g, open)
  {
    hide Wf, RestsOn, Stranded, OpenCount, Session;
    forall fd | fd in open
      ensures Stranded(sh0, g.currentDirBlk, n, g.handles[fd].dirBlk) <==> g.handles[fd].dirBlk !in g.marked
    {
      if !Stranded(sh0, g.currentDirBlk, n, g.handles[fd].dirBlk) {
        RestMarked(g.disk, g.marked, g.sh, Rest(g.handles[fd]), open[fd]);
      }
    }
    if StrayHandle(g) {
      var fd :| 0 <= fd < |g.handles| && g.handles[fd].usageCount > 0 && g.handles[fd].dirBlk !in g.marked;
      assert Stranded(sh0, g.currentDirBlk, n, g.handles[fd].dirBlk);
    }
  }

  /** An open file of the current directory counts as closed, and its handle stands on a free block. */
  ghost predicate LostHandle(g: Fs, open: map<nat, Entry>)
    reads g`marked, g`sh, g`currentDirBlk, g.handles
  {
    exists fd ::
      && fd in open && fd < |g.handles| && g.handles[fd].usageCount > 0 && g.handles[fd].dirBlk in FreeBlocks(g)
      && open[fd].dir == g.currentDirBlk && OpenCount(g, open[fd].name) == 0
  }

  // ----- runs -----

  /** Any namespace operation in a session. */
  method TreeStep(g: Fs, op: Op, ghost open: map<nat, Entry>) returns (stray: bool, ghost open': map<nat, Entry>)
    requires Session(g, open) && g.err != NoDev && FilesOk(g.disk, g.sh) && (op.WriteFileOp? ==> |op.data| < LIMIT)
    modifies g`disk, g`marked, g`sh, g`err, g`loadedBitmapBlk, g`buf, g`loadedDirBlk, g`currentDirBlk, g.bitmap
    ensures Inv(g) && TableReady(g) && FilesOk(g.disk, g.sh) && g.err != NoDev
    ensures Acts(g.blkCount, old(WorldOf(g, open)), TreeAct(op), Outcome(g.err, -1, 0, []), WorldOf(g, open'))
    ensures Session(g, open') <==> !stray
    ensures stray ==> op.DeleteOp? && g.err == None && LostHandle(g, open')
  {
    hide Wf, TreeOf, RestsOn, TableOk, Placed, FilesOk, FilesOf, SlotCost, BusyNames, FreeBlocks, Session, Stored,
      Rests, Rows, SpaceOf, SeatsOf, LostHandle, CreatesDir, Touches, WritesFile, Deletes, Renames, Enters, Leaves,
      Travels, Holding, Steps, Acts, SeatsAfter;
    SessionUnfolds(g, open);
    SpaceFields(g);
    stray, open' := false, open;
    ghost var w := WorldOf(g, open);
    SeatsStay(w, op);
    match op {
      case CreateDirOp(_) =>
        MakeOp(g, op, open);
      case TouchOp(_) =>
        MakeOp(g, op, open);
      case WriteFileOp(_, _, _) =>
        MakeOp(g, op, open);
      case DeleteOp(name, typ) =>
        stray := DeleteAct(g, name, typ, open);
      case RenameOp(from, to) =>
        open' := RenameOpen(g, from, to, open);
      case ChangeDirOp(_) =>
        MoveOp(g, op, open);
      case ParentOp =>
        MoveOp(g, op, open);
      case RootOp =>
        MoveOp(g, op, open);
      case WalkOp(_) =>
        MoveOp(g, op, open);
    }
    SpaceFields(g);
    if !stray { SessionUnfolds(g, open'); }
    TreeActed(g.blkCount, w, op, WorldOf(g, open'));
  }

  lemma SeatsStay(w: World, op: Op)
    ensures !op.RenameOp? ==> forall err :: SeatsAfter(w, op, err) == w.seats
  {
  }

  lemma TreeActed(n: nat, w: World, op: Op, w': World)
    requires Steps(w.space, op, w'.space) && w'.seats == SeatsAfter(w, op, w'.space.err)
    ensures Acts(n, w, TreeAct(op), Outcome(w'.space.err, -1, 0, []), w')
  {
    hide Steps, SeatsAfter;
  }

  /** tfs_get_used in a session. */
  method CountStep(g: Fs, ghost open: map<nat, Entry>) returns (o: Outcome)
    requires Session(g, open) && g.err != NoDev && FilesOk(g.disk, g.sh)
    modifies g`err, g`loadedBitmapBlk, g.bitmap
    ensures Session(g, open) && FilesOk(g.disk, g.sh) && g.err != NoDev && o.err == g.err
    ensures Acts(g.blkCount, old(WorldOf(g, open)), CountAct, o, WorldOf(g, open))
  {
    hide Wf, TreeOf, RestsOn, TableOk, Placed, FilesOk, FilesOf, SlotCost, BusyNames, Rests, Rows, SeatsOf;
    var used := GetUsed(g);
    o := Outcome(g.err, -1, used, []);
  }

  /** One call on open files. */
  method HandleStep(g: Fs, c: Call, beyond: nat, ghost open: map<nat, Entry>)
      returns (o: Outcome, lost: bool, ghost open': map<nat, Entry>, ghost d: seq<nat>)
    requires Session(g, open) && g.err != NoDev && FilesOk(g.disk, g.sh) && beyond > 0 && AlwaysInReach(c, g.blkCount)
    modifies g`disk, g`marked, g`sh, g`err, g`loadedBitmapBlk, g`buf, g`loadedDirBlk, g.bitmap, g.handles
    ensures g.err != NoDev && (lost <==> old(Loses(DeskIn(WorldOf(g, open)), c)))
    ensures !lost ==> Session(g, open') && FilesOk(g.disk, g.sh)
    ensures !lost ==> Acts(g.blkCount, old(WorldOf(g, open)), HandleAct(c), o, WorldOf(g, open'))
    ensures lost ==> open' == open && RanDry(g, open, old(Dirs(g)), old(DeskOf(g, open)), c, d)
  {
    hide Holding, TreeOf, FilesOk, FilesOf, SlotCost, BusyNames, FreeBlocks, Session, Rests, Rows, SpaceOf, SeatsOf,
      RanDry, Gives,
      After, Loses, DeskIn, DeskOf, SameSkeleton, AlwaysInReach, WorldOf;
    SpaceFields(g);
    SameDesk(g, open);
    ghost var w := WorldOf(g, open);
    WorldFields(g, open);
    o, lost, open', d := OneCall(g, c, beyond, open);
    if !lost {
      SessionFiles(g, open');
      SameDesk(g, open');
      SpaceFields(g);
      WorldFields(g, open');
    }
  }

  lemma WorldFields(g: Fs, open: map<nat, Entry>)
    requires FilesOk(g.disk, g.sh)
    ensures WorldOf(g, open).space == SpaceOf(g)
  {
    hide FilesOk, SpaceOf;
  }

  lemma SessionFiles(g: Fs, open: map<nat, Entry>)
    requires Session(g, open)
    ensures FilesOk(g.disk, g.sh) && Inv(g)
  {
    hide Holding, Placed, TableReady;
    FilesOkNow(g);
  }

  /** The world of a session is sound. */
  lemma SoundSession(g: Fs, open: map<nat, Entry>)
    requires Session(g, open)
    ensures FilesOk(g.disk, g.sh) && SoundWorld(WorldOf(g, open))
  {
    hide Wf, TreeOf, FilesOk, FilesOf, SlotCost, BusyNames, FreeBlocks, RestsOn, TableOk, AllFiles, FilesByEntry,
      Sound, Seated, Here,
      SpaceOf, SeatsOf, Rests, Rows, Placed;
    SessionFiles(g, open);
    SoundVolume(g);
    SpaceFields(g);
    SameDesk(g, open);
    SeatsAreOpen(g.disk, g.sh, Rests(g.handles), Rows(g.handles), open);
    forall n ensures n in BusyNames(g) <==> Seated(DeskOf(g, open), Entry(g.currentDirBlk, n)) {
      SeatedHere(g, open, n);
    }
    forall fd, y | fd in open && y in open && fd != y ensures open[fd] != open[y] {
      DifferentFiles(g.disk, g.sh, Rests(g.handles), Rows(g.handles), open, fd, y);
    }
  }

  /** The act fits on every drive of n blocks. */
  predicate Allowed(a: Act, n: nat)
  {
    match a
    case TreeAct(op) => op.WriteFileOp? ==> |op.data| < LIMIT
    case HandleAct(c) => AlwaysInReach(c, n)
    case CountAct => true
  }

  /** One act of a run. */
  method OneAct(g: Fs, a: Act, beyond: nat, ghost open: map<nat, Entry>)
      returns (o: Outcome, lost: bool, stray: bool, ghost open': map<nat, Entry>, ghost d: seq<nat>)
    requires Session(g, open) && g.err != NoDev && FilesOk(g.disk, g.sh) && beyond > 0 && Allowed(a, g.blkCount)
    modifies g`disk, g`marked, g`sh, g`err, g`loadedBitmapBlk, g`buf, g`loadedDirBlk, g`currentDirBlk
    modifies g.bitmap, g.handles
    ensures g.err != NoDev && (lost <==> a.HandleAct? && old(Loses(DeskIn(WorldOf(g, open)), a.call)))
    ensures !lost ==> FilesOk(g.disk, g.sh) && Acts(g.blkCount, old(WorldOf(g, open)), a, o, WorldOf(g, open'))
    ensures !lost ==> (Session(g, open') <==> !stray)
    ensures lost ==> !stray && open' == open && RanDry(g, open, old(Dirs(g)), old(DeskOf(g, open)), a.call, d)
    ensures stray ==> a.TreeAct? && a.op.DeleteOp? && Inv(g) && LostHandle(g, open')
  {
    hide Holding, TreeOf, FilesOk, FilesOf, Session, SpaceOf, RanDry, Acts, DeskIn, DeskOf, Loses, AlwaysInReach,
      WorldOf, LostHandle,
      TableReady;
    lost, stray, open', d := false, false, open, [];
    match a {
      case TreeAct(op) =>
        stray, open' := TreeStep(g, op, open);
        o := Outcome(g.err, -1, 0, []);
      case HandleAct(c) =>
        o, lost, open', d := HandleStep(g, c, beyond, open);
      case CountAct =>
        o := CountStep(g, open);
    }
  }

  /** How a run can end before its time, after the states `worlds`. */
  ghost predicate EndsEarly(g: Fs, open: map<nat, Entry>, acts: seq<Act>, worlds: seq<World>, stray: bool, d: seq<nat>)
    reads g`disk, g`marked, g`sh, g`currentDirBlk, g`lastBitmapBlk, g`lastBitmapLen, g`loadedBitmapBlk, g.bitmap
    reads g.handles
  {
    var done := |worlds| - 1;
    if stray then
      // a deletion left an open file behind
      && 0 < done <= |acts| && acts[done - 1].TreeAct? && acts[done - 1].op.DeleteOp?
      && Inv(g) && !Session(g, open) && LostHandle(g, open)
    else
      // a call took the first blocks of a file and ran out
      && 0 <= done < |acts| && acts[done].HandleAct? && Loses(DeskIn(worlds[done]), acts[done].call)
      && RanDry(g, open, worlds[done].space.dirs, DeskIn(worlds[done]), acts[done].call, d)
  }

  /** Any interleaving of namespace operations, calls on open files and tfs_get_used, with all their
      errors: every outcome and every state is one of the abstract world. The run ends early exactly
      at a deletion that strands an open file, and at a call that takes the first blocks of a file
      and runs out. */
  method RunAll(g: Fs, acts: seq<Act>, beyond: nat, ghost open: map<nat, Entry>)
      returns (outs: seq<Outcome>, stray: bool, ghost open': map<nat, Entry>, ghost worlds: seq<World>,
          ghost d: seq<nat>)
    requires Session(g, open) && g.err != NoDev && beyond > 0
    requires forall i :: 0 <= i < |acts| ==> Allowed(acts[i], g.blkCount)
    modifies g`disk, g`marked, g`sh, g`err, g`loadedBitmapBlk, g`buf, g`loadedDirBlk, g`currentDirBlk
    modifies g.bitmap, g.handles
    ensures |outs| <= |acts| && |worlds| == |outs| + 1
    ensures FilesOk(old(g.disk), old(g.sh)) && worlds[0] == old(WorldOf(g, open))
    ensures forall i :: 0 <= i < |outs| ==> Acts(g.blkCount, worlds[i], acts[i], outs[i], worlds[i + 1])
    ensures forall i :: 0 <= i < |outs| && acts[i].HandleAct? ==> !Loses(DeskIn(worlds[i]), acts[i].call)
    ensures forall i :: 0 <= i <= |outs| && !(stray && i == |outs|) ==> SoundWorld(worlds[i])
    ensures |outs| == |acts| && !stray ==>
      Session(g, open') && FilesOk(g.disk, g.sh) && worlds[|outs|] == WorldOf(g, open')
    ensures |outs| < |acts| || stray ==> EndsEarly(g, open', acts, worlds, stray, d)
  {
    hide Session, RanDry, WorldOf, Acts, Loses, DeskIn, DeskOf, FilesOk, SoundWorld, Allowed, Holding, LostHandle,
      SpaceOf, TreeOf;
    SoundSession(g, open);
    outs, stray, open', d := [], false, open, [];
    worlds := [WorldOf(g, open)];
    while |outs| < |acts|
      invariant |outs| <= |acts| && |worlds| == |outs| + 1 && !stray && g.err != NoDev
      invariant Session(g, open') && FilesOk(g.disk, g.sh)
      invariant worlds[0] == old(WorldOf(g, open)) && worlds[|outs|] == WorldOf(g, open') && SoundWorld(worlds[|outs|])
      invariant forall i :: 0 <= i < |outs| ==> Acts(g.blkCount, worlds[i], acts[i], outs[i], worlds[i + 1])
      invariant forall i :: 0 <= i < |outs| ==>
        SoundWorld(worlds[i]) && (acts[i].HandleAct? ==> !Loses(DeskIn(worlds[i]), acts[i].call))
    {
      SameDesk(g, open');
      SpaceFields(g);
      WorldFields(g, open');
      var o, lost;
      o, lost, stray, open', d := OneAct(g, acts[|outs|], beyond, open');
      if lost {
        return;
      }
      outs, worlds := outs + [o], worlds + [WorldOf(g, open')];
      if stray {
        return;
      }
      SoundSession(g, open');
    }
  }
}
