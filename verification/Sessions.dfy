/** Any number of open files at once: tfs_open, tfs_close, tfs_read, tfs_write and tfs_trunc on file
    descriptors refine the calls on a desk of flat files. */
module Sessions {
  import opened Layout
  import opened Shapes
  import opened Volume
  import opened Chains
  import opened Directory
  import opened Tree
  import opened Links
  import opened Mounted
  import opened Detaching
  import opened Delete
  import opened FileOps
  import opened Format
  import opened Cursor
  import opened RandomAccess
  import opened OpenFiles
  import opened HandleTable
  import opened Desks

  // ----- what an open file is -----

  /** The fields of a handle that matter while it is not in use. */
  datatype Resting = Resting(dirBlk: nat, dirItem: nat, size: nat, first: nat, blk: nat, pos: nat)

  ghost function Rest(h: Handle): Resting
    reads h`dirBlk, h`dirItem, h`size, h`firstBlk, h`currBlk, h`currPos
  {
    Resting(h.dirBlk, h.dirItem, h.size, h.firstBlk, h.currBlk, h.currPos)
  }

  /** The bytes of the file chain with head x, none if there is no such chain. */
  ghost function BytesAt(disk: seq<Block>, sh: Shape, x: nat): seq<bv8>
  {
    if x in sh.chains && x !in sh.slots && DataChain(disk, sh.chains[x]) then Flat(disk, sh.chains[x]) else []
  }

  /** Every file of the volume by its entry. */
  ghost function AllFiles(disk: seq<Block>, sh: Shape): map<Entry, FlatFile>
  {
    var T := TreeOf(disk, sh);
    map d, n | d in T && n in T[d] && T[d][n].typ == File ::
      Entry(d, n) := FlatFile(BytesAt(disk, sh, T[d][n].blk), T[d][n].size)
  }

  /** r rests on the file of entry e: it names the place of e on the disk and the first block of the
      file, and its cursor stands anywhere in the file. */
  ghost predicate RestsOn(disk: seq<Block>, sh: Shape, r: Resting, e: Entry)
  {
    && HasFile(TreeOf(disk, sh), e) && AtSlot(sh, e, r.dirBlk, r.dirItem)
    && TreeOf(disk, sh)[e.dir][e.name].blk == r.first
    && CursorOk(FileChain(sh, r.first), r.blk, r.pos)
  }

  ghost function Rests(hs: seq<Handle>): (r: seq<Resting>)
    reads hs
    ensures |r| == |hs| && forall i :: 0 <= i < |hs| ==> r[i] == Rest(hs[i])
  {
    seq(|hs|, i requires 0 <= i < |hs| reads hs => Rest(hs[i]))
  }

  lemma SameRests(rests: seq<Resting>, hs: seq<Handle>)
    requires |rests| == |hs| && forall i :: 0 <= i < |hs| ==> rests[i] == Rest(hs[i])
    ensures Rests(hs) == rests
  {
  }

  /** The live handles, and the files they rest on. */
  ghost predicate Placed(disk: seq<Block>, sh: Shape, rests: seq<Resting>, rows: seq<Row>, open: map<nat, Entry>)
  {
    && |rests| == |rows| == MAX_FDS
    && (forall fd: nat :: fd in open <==> fd < MAX_FDS && rows[fd].count > 0)
    && (forall fd :: fd in open ==> RestsOn(disk, sh, rests[fd], open[fd]))
    && (forall fd :: fd in open ==> rows[fd].At(rests[fd].dirBlk, rests[fd].dirItem))
  }

  /** The volume is whole, `open` names the files of the live handles, and every live handle rests
      on its file. */
  ghost predicate Session(g: Fs, open: map<nat, Entry>)
    reads g`disk, g`marked, g`sh, g`currentDirBlk, g`lastBitmapBlk, g`lastBitmapLen, g`loadedBitmapBlk, g.bitmap
    reads g.handles
  {
    Inv(g) && TableReady(g) && Placed(g.disk, g.sh, Rests(g.handles), Rows(g.handles), open)
  }

  ghost function SeatsOf(rests: seq<Resting>, rows: seq<Row>, open: map<nat, Entry>): map<nat, Seat>
  {
    map fd | fd in open && fd < |rests| && fd < |rows| :: Seat(open[fd], rests[fd].size, rows[fd].count)
  }

  /** What a session means. */
  ghost function DeskOf(g: Fs, open: map<nat, Entry>): Desk
    reads g`disk, g`sh, g`marked, g.handles
  {
    Desk(AllFiles(g.disk, g.sh), SeatsOf(Rests(g.handles), Rows(g.handles), open), |FreeBlocks(g)|)
  }

  /** A handle that knows of no blocks. */
  ghost function Blockless(r: Resting): Resting { r.(first := 0, blk := 0, pos := 0) }

  /** Handle fd alone knows of the blocks d: its file has none on the disk. Were it not for this
      handle and for the marks of these blocks, the session would be whole: every file, every
      directory and every other handle is. */
  ghost predicate Adrift(g: Fs, open: map<nat, Entry>, fd: int, d: seq<nat>)
    reads g`disk, g`marked, g`sh, g`currentDirBlk, g`lastBitmapBlk, g`lastBitmapLen, g`loadedBitmapBlk, g.bitmap
    reads g.handles
  {
    && TableReady(g) && 0 <= fd < |g.handles| && fd in open && d != [] && OpenOn(g, g.handles[fd], d, open[fd])
    && Wf(g.disk, g.marked - Elems(d), g.sh, {}, Nothing)
    && Placed(g.disk, g.sh, Rests(g.handles)[fd := Blockless(Rest(g.handles[fd]))], Rows(g.handles), open)
  }

  /** The state after call c, made from desk k, took the first blocks d of a file and ran out: no
      directory and no file is different, and no other handle. */
  ghost predicate RanDry(g: Fs, open: map<nat, Entry>, T: Listings, k: Desk, c: Call, d: seq<nat>)
    reads g`disk, g`marked, g`sh, g`currentDirBlk, g`lastBitmapBlk, g`lastBitmapLen, g`loadedBitmapBlk, g.bitmap
    reads g.handles
  {
    && Adrift(g, open, FdOf(c), d) && g.handles[FdOf(c)].firstBlk != 0 && FreeBlocks(g) == {}
    && Dirs(g) == T && DeskOf(g, open) == AfterLoss(k, c)
  }

  // ----- facts about sessions -----

  lemma FileIn(disk: seq<Block>, sh: Shape, e: Entry)
    ensures e in AllFiles(disk, sh) <==> HasFile(TreeOf(disk, sh), e)
    ensures HasFile(TreeOf(disk, sh), e) ==>
      var it := TreeOf(disk, sh)[e.dir][e.name]; AllFiles(disk, sh)[e] == FlatFile(BytesAt(disk, sh, it.blk), it.size)
  {
    hide TreeOf, BytesAt;
  }

  lemma EntryOf(disk: seq<Block>, sh: Shape, r: Resting, e: Entry)
    requires RestsOn(disk, sh, r, e)
    ensures HasFile(TreeOf(disk, sh), e) && TreeOf(disk, sh)[e.dir][e.name].blk == r.first
    ensures AtSlot(sh, e, r.dirBlk, r.dirItem)
  {
    hide AtSlot;
  }

  lemma PlacedParts(disk: seq<Block>, sh: Shape, rests: seq<Resting>, rows: seq<Row>, open: map<nat, Entry>)
    requires Placed(disk, sh, rests, rows, open)
    ensures |rests| == |rows| == MAX_FDS && forall fd: nat :: fd in open <==> fd < MAX_FDS && rows[fd].count > 0
    ensures forall fd :: fd in open ==>
      RestsOn(disk, sh, rests[fd], open[fd]) && rows[fd].At(rests[fd].dirBlk, rests[fd].dirItem)
  {
  }

  /** Every seat of a session is at a file, and the descriptors in use are those of live handles. */
  lemma SeatsAreOpen(disk: seq<Block>, sh: Shape, rests: seq<Resting>, rows: seq<Row>, open: map<nat, Entry>)
    requires Placed(disk, sh, rests, rows, open)
    ensures SeatsOf(rests, rows, open).Keys == open.Keys
    ensures forall fd :: fd in open ==>
      fd < MAX_FDS && SeatsOf(rests, rows, open)[fd] == Seat(open[fd], rests[fd].size, rows[fd].count)
    ensures forall fd :: fd in open ==> open[fd] in AllFiles(disk, sh)
  {
    hide AllFiles, RestsOn;
    forall fd | fd in open ensures open[fd] in AllFiles(disk, sh) {
      EntryOf(disk, sh, rests[fd], open[fd]);
      FileIn(disk, sh, open[fd]);
    }
  }

  /** Different handles are open on different files. */
  lemma DifferentFiles(disk: seq<Block>, sh: Shape, rests: seq<Resting>, rows: seq<Row>, open: map<nat, Entry>,
                       x: nat, y: nat)
    requires Placed(disk, sh, rests, rows, open) && TableOk(rows) && x in open && y in open && x != y
    ensures open[x] != open[y]
  {
    hide TreeOf, CursorOk;
  }

  /** A mounted volume without open files starts a session. */
  lemma SessionStarts(g: Fs)
    requires Inv(g) && TableReady(g) && forall fd :: 0 <= fd < MAX_FDS ==> g.handles[fd].usageCount == 0
    ensures Session(g, map[]) && DeskOf(g, map[]).seats == map[]
  {
    hide Holding, TableOk, RestsOn;
  }

  // ----- one file is taken out of the volume and put back -----

  /** The books without the chain of a resting file: everything else is as before. */
  lemma TakenOut(disk: seq<Block>, marked: set<nat>, sh: Shape, r: Resting, e: Entry)
    requires Wf(disk, marked, sh, {}, Nothing) && RestsOn(disk, sh, r, e)
    ensures var c, sh' := FileChain(sh, r.first), Without(sh, r.first);
      && DataChain(disk, c) && HeadOf(c) == r.first && Flat(disk, c) == BytesAt(disk, sh, r.first)
      && Wf(disk, marked, sh', Elems(c), Detach(e))
      && TreeOf(disk, sh') == TreeOf(disk, sh)
      && FilesOk(disk, sh) && FilesOf(disk, sh') == FilesOf(disk, sh) - {r.first}
      && sh'.slots == sh.slots && Elems(c) <= marked && r.first !in sh.slots
      && (forall h :: h in sh.chains && h != r.first ==> h in sh'.chains && sh'.chains[h] == sh.chains[h])
  {
    hide OwnOk, DirsOk, FilesOk, RefsOk, DepthOk, MarksOk, TreeOf, FilesOf, Flat, DataAt, Distinct;
    DetachFile(disk, marked, sh, e);
    NoChainZero(disk, marked, sh);
    EmptyChain(disk);
    MarksSubset(|disk|, marked, Without(sh, r.first), Elems(FileChain(sh, r.first)));
    WfFilesOk(disk, marked, sh, {}, Nothing);
    OtherChains(sh, r.first);
  }

  /** Another resting file is not affected by what happened to the chain of entry e. */
  lemma OtherRests(disk: seq<Block>, marked: set<nat>, sh: Shape, disk': seq<Block>, marked': set<nat>, sh': Shape,
                   r: Resting, f: Entry, e: Entry, x: nat, it: Item)
    requires Wf(disk, marked, sh, {}, Nothing) && Wf(disk', marked', sh', {}, Nothing)
    requires RestsOn(disk, sh, r, f) && f != e && HasFile(TreeOf(disk, sh), e)
    requires TreeOf(disk, sh)[e.dir][e.name].blk == x
    requires sh'.slots == sh.slots && TreeOf(disk', sh') == PutEntry(TreeOf(disk, sh), e, it)
    requires forall h :: h in sh.chains && h != x ==> h in sh'.chains && sh'.chains[h] == sh.chains[h]
    ensures RestsOn(disk', sh', r, f)
  {
    hide Wf, TreeOf, DirsOk, CursorOk;
    NoChainZero(disk, marked, sh);
    NoChainZero(disk', marked', sh');
    OtherHeads(disk, marked, sh, f, e);
    HeadInBooks(disk, marked, sh, f);
    FileAt(disk, marked, sh, e);
    WfParts(disk, marked, sh, {}, Nothing);
    DirsAreChains(disk, sh);
  }

  /** Two file entries lead to different chains. */
  lemma OtherHeads(disk: seq<Block>, marked: set<nat>, sh: Shape, f: Entry, e: Entry)
    requires Wf(disk, marked, sh, {}, Nothing) && f != e && HasFile(TreeOf(disk, sh), e) && HasFile(TreeOf(disk, sh), f)
    ensures var T := TreeOf(disk, sh); T[f.dir][f.name].blk != 0 ==> T[f.dir][f.name].blk != T[e.dir][e.name].blk
  {
    hide OwnOk, DirsOk, FilesOk, DepthOk, MarksOk, TreeOf;
    var T: Listings := TreeOf(disk, sh);
    assert ItemOk(T[e.dir][e.name], e, T.Keys, sh.chains.Keys, sh.up);
    assert ItemOk(T[f.dir][f.name], f, T.Keys, sh.chains.Keys, sh.up);
  }

  lemma HeadInBooks(disk: seq<Block>, marked: set<nat>, sh: Shape, f: Entry)
    requires Wf(disk, marked, sh, {}, Nothing) && HasFile(TreeOf(disk, sh), f)
    ensures var x := TreeOf(disk, sh)[f.dir][f.name].blk; x != 0 ==> x in sh.chains && x !in sh.slots
  {
    hide Wf, TreeOf, DataChain, FilesOf, Flat;
    FileAt(disk, marked, sh, f);
  }

  /** Opens the books for a call on the file of handle h. */
  ghost method TakeOut(g: Fs, h: Handle, e: Entry) returns (c: seq<nat>)
    requires Inv(g) && RestsOn(g.disk, g.sh, Rest(h), e)
    modifies g`sh
    ensures OpenOn(g, h, c, e) && Dirs(g) == old(Dirs(g)) && Files(g) == old(Files(g)) - {h.firstBlk}
    ensures Dirs(g)[e.dir][e.name].blk == HeadOf(c) == h.firstBlk
    ensures Flat(g.disk, c) == old(BytesAt(g.disk, g.sh, h.firstBlk)) && c == FileChain(old(g.sh), h.firstBlk)
    ensures g.sh == Without(old(g.sh), h.firstBlk) && g.sh.slots == old(g.sh.slots)
    ensures forall x :: x in old(g.sh.chains) && x != h.firstBlk ==>
      x in g.sh.chains && g.sh.chains[x] == old(g.sh.chains)[x]
  {
    hide Wf, OwnOk, DirsOk, RefsOk, DepthOk, MarksOk, TreeOf, FilesOf, Flat, DataChain, BytesAt, Without, CursorOk;
    TakenOut(g.disk, g.marked, g.sh, Rest(h), e);
    c := FileChain(g.sh, h.firstBlk);
    g.sh := Without(g.sh, h.firstBlk);
    WfFilesOk(g.disk, g.marked, g.sh, Elems(c), Detach(e));
    FreshFacts(g, Elems(c), Detach(e));
  }

  /** Closes the books while the item leads to the chain of the handle. */
  ghost method PutBack(g: Fs, h: Handle, d: seq<nat>, e: Entry)
    requires OpenOn(g, h, d, e) && Dirs(g)[e.dir][e.name].blk == HeadOf(d)
    modifies g`sh
    ensures Inv(g) && Dirs(g) == old(Dirs(g)) && RestsOn(g.disk, g.sh, Rest(h), e)
    ensures Files(g) == if d == [] then old(Files(g)) else old(Files(g))[d[0] := old(Flat(g.disk, d))]
    ensures BytesAt(g.disk, g.sh, HeadOf(d)) == Flat(g.disk, d) && g.sh.slots == old(g.sh.slots)
    ensures forall x :: x in old(g.sh.chains) ==> x in g.sh.chains && g.sh.chains[x] == old(g.sh.chains)[x]
    ensures (d != [] ==> d[0] !in old(g.sh.chains)) && DataChain(g.disk, d)
  {
    hide OwnOk, DirsOk, FilesOk, RefsOk, DepthOk, MarksOk, TreeOf, FilesOf, Flat, DataAt, Distinct, WithChain;
    AttachFile(g.disk, g.marked, g.sh, d, e);
    PutBackChain(g.disk, g.marked, g.sh, d, e);
    g.sh := With(g.sh, d, e);
  }

  lemma PutBackChain(disk: seq<Block>, marked: set<nat>, sh: Shape, d: seq<nat>, e: Entry)
    requires Wf(disk, marked, With(sh, d, e), {}, Nothing) && DataChain(disk, d) && (d != [] ==> d[0] !in sh.chains)
    requires DirsOk(disk, sh) && With(sh, d, e).slots == sh.slots
    ensures FileChain(With(sh, d, e), HeadOf(d)) == d && BytesAt(disk, With(sh, d, e), HeadOf(d)) == Flat(disk, d)
  {
    hide OwnOk, FilesOk, RefsOk, DepthOk, MarksOk, TreeOf, Flat, DataAt, Distinct;
    NoChainZero(disk, marked, With(sh, d, e));
    EmptyChain(disk);
    DirsAreChains(disk, sh);
  }

  lemma FilesAreChains(disk: seq<Block>, sh: Shape)
    requires FilesOk(disk, sh)
    ensures FilesOf(disk, sh).Keys <= sh.chains.Keys
    ensures forall x :: x in FilesOf(disk, sh) <==> x in sh.chains && x !in sh.slots
    ensures forall x :: x in FilesOf(disk, sh) ==> BytesAt(disk, sh, x) == FilesOf(disk, sh)[x]
    ensures forall x :: x !in FilesOf(disk, sh) ==> BytesAt(disk, sh, x) == []
  {
  }

  /** What a call on one open file leaves alone: the other chains, and all the resting handles. */
  ghost predicate OthersKept(disk: seq<Block>, sh: Shape, disk': seq<Block>, sh': Shape, x: nat)
  {
    forall y :: y in sh.chains && y != x ==>
        y in sh'.chains && sh'.chains[y] == sh.chains[y] && BytesAt(disk', sh', y) == BytesAt(disk, sh, y)
  }

  lemma OthersFromFiles(disk: seq<Block>, sh: Shape, disk': seq<Block>, sh': Shape, x: nat, d: seq<nat>,
                        bytes: seq<bv8>)
    requires FilesOk(disk, sh) && FilesOk(disk', sh') && sh'.slots == sh.slots
    requires forall y :: y in sh.chains && y != x ==> y in sh'.chains && sh'.chains[y] == sh.chains[y]
    requires var F := FilesOf(disk, sh) - {x}; FilesOf(disk', sh') == if d == [] then F else F[d[0] := bytes]
    requires d != [] ==> d[0] !in sh.chains || d[0] == x
    ensures OthersKept(disk, sh, disk', sh', x)
  {
    hide FilesOk, FilesOf, BytesAt;
    FilesAreChains(disk, sh);
    FilesAreChains(disk', sh');
  }

  // ----- what a call on one file leaves alone -----

  lemma SkeletonPut(T: Listings, e: Entry, it: Item)
    requires HasFile(T, e) && it.typ == File
    ensures SameSkeleton(T, PutEntry(T, e, it))
  {
  }

  lemma SkeletonTwice(T: Listings, T': Listings, T'': Listings)
    requires SameSkeleton(T, T') && SameSkeleton(T', T'')
    ensures SameSkeleton(T, T'')
  {
  }

  /** A changed file item and its chain: all other files are as before. */
  lemma OneFileChanged(disk: seq<Block>, marked: set<nat>, sh: Shape, disk': seq<Block>, marked': set<nat>, sh': Shape,
                       e: Entry, it: Item)
    requires Wf(disk, marked, sh, {}, Nothing) && Wf(disk', marked', sh', {}, Nothing)
    requires HasFile(TreeOf(disk, sh), e) && TreeOf(disk', sh') == PutEntry(TreeOf(disk, sh), e, it) && it.typ == File
    requires OthersKept(disk, sh, disk', sh', TreeOf(disk, sh)[e.dir][e.name].blk)
    ensures AllFiles(disk', sh') == AllFiles(disk, sh)[e := FlatFile(BytesAt(disk', sh', it.blk), it.size)]
  {
    hide Wf, TreeOf, BytesAt, OthersKept, AllFiles;
    NoChainZero(disk, marked, sh);
    NoChainZero(disk', marked', sh');
    NoBytes(disk, sh, 0);
    NoBytes(disk', sh', 0);
    var x := TreeOf(disk, sh)[e.dir][e.name].blk;
    forall f
      ensures f in AllFiles(disk', sh') <==> f in AllFiles(disk, sh)
      ensures f in AllFiles(disk, sh) && f != e ==> AllFiles(disk', sh')[f] == AllFiles(disk, sh)[f]
    {
      FileIn(disk, sh, f);
      FileIn(disk', sh', f);
      if f in AllFiles(disk, sh) && f != e {
        OtherHeads(disk, marked, sh, f, e);
        HeadInBooks(disk, marked, sh, f);
        KeptAt(disk, sh, disk', sh', x, TreeOf(disk, sh)[f.dir][f.name].blk);
      }
    }
    FileIn(disk', sh', e);
  }

  lemma NoBytes(disk: seq<Block>, sh: Shape, x: nat)
    requires x !in sh.chains
    ensures BytesAt(disk, sh, x) == []
  {
  }

  lemma KeptAt(disk: seq<Block>, sh: Shape, disk': seq<Block>, sh': Shape, x: nat, y: nat)
    requires OthersKept(disk, sh, disk', sh', x)
    ensures y in sh.chains && y != x ==> BytesAt(disk', sh', y) == BytesAt(disk, sh, y)
  {
    hide BytesAt;
  }

  /** Closes the books after a call on handle fd: the session goes on, and only this file and this
      seat may look different. */
  ghost method Resume(g: Fs, fd: nat, open: map<nat, Entry>, d: seq<nat>, was: Snapshot, sh0: Shape,
                      rests: seq<Resting>, rows: seq<Row>, it: Item)
    requires |g.handles| == MAX_FDS && fd in open && fd < MAX_FDS && OpenOn(g, g.handles[fd], d, open[fd])
    requires Dirs(g)[open[fd].dir][open[fd].name].blk == HeadOf(d)
    requires TableReady(g) && Placed(was.disk, sh0, rests, rows, open) && TableOk(rows)
    requires Wf(was.disk, was.marked, sh0, {}, Nothing)
    requires forall y :: 0 <= y < MAX_FDS ==>
      RowOf(g.handles[y]) == rows[y] && (y != fd ==> Rest(g.handles[y]) == rests[y])
    requires FilesOk(was.disk, sh0) && g.sh.slots == sh0.slots && Files(g) == FilesOf(was.disk, sh0) - {rests[fd].first}
    requires forall x :: x in sh0.chains && x != rests[fd].first ==> x in g.sh.chains && g.sh.chains[x] == sh0.chains[x]
    requires HasFile(TreeOf(was.disk, sh0), open[fd])
    requires TreeOf(was.disk, sh0)[open[fd].dir][open[fd].name].blk == rests[fd].first
    requires it.typ == File && Dirs(g) == PutEntry(TreeOf(was.disk, sh0), open[fd], it)
    modifies g`sh
    ensures Session(g, open) && SameSkeleton(TreeOf(was.disk, sh0), Dirs(g)) && Dirs(g) == old(Dirs(g))
    ensures AllFiles(g.disk, g.sh) == AllFiles(was.disk, sh0)[open[fd] := FlatFile(Flat(g.disk, d), it.size)]
    ensures SeatsOf(Rests(g.handles), Rows(g.handles), open) ==
      SeatsOf(rests, rows, open)[fd := Seat(open[fd], g.handles[fd].size, rows[fd].count)]
  {
    hide Wf, TreeOf, FilesOf, Flat, BytesAt, RestsOn, TableOk, OthersKept, FilesOk, DataChain, Elems, OpenOn, Rows,
      AllFiles, SameSkeleton, Placed, SeatsOf, Rests, FreeBlocks;
    PlacedParts(was.disk, sh0, rests, rows, open);
    var x, e := rests[fd].first, open[fd];
    PutBack(g, g.handles[fd], d, e);
    WfFilesOk(g.disk, g.marked, g.sh, {}, Nothing);
    OthersFromFiles(was.disk, sh0, g.disk, g.sh, x, d, Flat(g.disk, d));
    OneFileChanged(was.disk, was.marked, sh0, g.disk, g.marked, g.sh, e, it);
    SkeletonPut(TreeOf(was.disk, sh0), e, it);
    forall y | y in open && y != fd ensures RestsOn(g.disk, g.sh, rests[y], open[y]) {
      DifferentFiles(was.disk, sh0, rests, rows, open, y, fd);
      KeptChains(was.disk, sh0, g.disk, g.sh, x);
      OtherRests(was.disk, was.marked, sh0, g.disk, g.marked, g.sh, rests[y], open[y], e, x, it);
    }
    SameRows(rows, g.handles);
    assert Rests(g.handles) == rests[fd := Rest(g.handles[fd])];
    StillPlaced(was.disk, sh0, g.disk, g.sh, rests, rows, open, fd, Rest(g.handles[fd]));
  }

  lemma KeptChains(disk: seq<Block>, sh: Shape, disk': seq<Block>, sh': Shape, x: nat)
    requires OthersKept(disk, sh, disk', sh', x)
    ensures forall y :: y in sh.chains && y != x ==> y in sh'.chains && sh'.chains[y] == sh.chains[y]
  {
    hide BytesAt;
  }

  lemma StillPlaced(disk: seq<Block>, sh: Shape, disk': seq<Block>, sh': Shape, rests: seq<Resting>, rows: seq<Row>,
                    open: map<nat, Entry>, fd: nat, r: Resting)
    requires Placed(disk, sh, rests, rows, open) && fd in open
    requires forall y :: y in open && y != fd ==> RestsOn(disk', sh', rests[y], open[y])
    requires RestsOn(disk', sh', r, open[fd]) && rows[fd].At(r.dirBlk, r.dirItem)
    ensures Placed(disk', sh', rests[fd := r], rows, open)
    ensures SeatsOf(rests[fd := r], rows, open) ==
        SeatsOf(rests, rows, open)[fd := Seat(open[fd], r.size, rows[fd].count)]
  {
    hide RestsOn;
  }

  // ----- the calls -----

  /** What the desk says about the file of handle fd. */
  lemma DeskAt(g: Fs, open: map<nat, Entry>, fd: int)
    requires Session(g, open)
    ensures |g.handles| == MAX_FDS && (DeskOf(g, open).Uses(fd) <==> fd in open.Keys)
    ensures DeskOf(g, open).Uses(fd) <==> 0 <= fd < MAX_FDS && g.handles[fd].usageCount > 0
    ensures DeskOf(g, open).Uses(fd) ==> fd in open.Keys && var h, k, e := g.handles[fd], DeskOf(g, open), open[fd];
      && k.seats[fd] == Seat(e, h.size, h.usageCount) && RestsOn(g.disk, g.sh, Rest(h), e)
      && HasFile(Dirs(g), e) && Dirs(g)[e.dir][e.name].blk == h.firstBlk
      && k.FileOf(fd) == FlatFile(BytesAt(g.disk, g.sh, h.firstBlk), Dirs(g)[e.dir][e.name].size)
    ensures Placed(g.disk, g.sh, Rests(g.handles), Rows(g.handles), open) && TableReady(g) && TableOk(Rows(g.handles))
    ensures Inv(g) && Wf(g.disk, g.marked, g.sh, {}, Nothing) && FilesOk(g.disk, g.sh)
    ensures forall i, j :: 0 <= i < j < MAX_FDS ==> g.handles[i] != g.handles[j]
  {
    hide AllFiles, BytesAt, RestsOn, TreeOf, TableOk, Placed, FilesOk;
    SeatsAreOpen(g.disk, g.sh, Rests(g.handles), Rows(g.handles), open);
    PlacedParts(g.disk, g.sh, Rests(g.handles), Rows(g.handles), open);
    WfFilesOk(g.disk, g.marked, g.sh, {}, Nothing);
    if fd in open.Keys {
      EntryOf(g.disk, g.sh, Rest(g.handles[fd]), open[fd]);
      FileIn(g.disk, g.sh, open[fd]);
    }
  }

  lemma OpenParts(g: Fs, h: Handle, d: seq<nat>, e: Entry)
    requires OpenOn(g, h, d, e)
    ensures HasFile(Dirs(g), e) && DataChain(g.disk, d) && h.firstBlk == HeadOf(d)
  {
  }

  lemma ItemPut(T: Listings, e: Entry, it: Item)
    requires HasFile(T, e)
    ensures PutEntry(T, e, it)[e.dir][e.name] == it && e.name in PutEntry(T, e, it)[e.dir]
    ensures e.dir in PutEntry(T, e, it)
    ensures PutEntry(T, e, T[e.dir][e.name]) == T
    ensures SameSkeleton(T, T)
  {
    assert T[e.dir][e.name := T[e.dir][e.name]] == T[e.dir];
    assert T[e.dir := T[e.dir]] == T;
  }

  lemma ExtendedIsPadded(was: Snapshot, c: seq<nat>, blocks: nat)
    requires DataChain(was.disk, c) && |c| <= blocks
    ensures Extended(was, c, blocks) == Padded(Flat(was.disk, c), DATA_LEN * blocks)
  {
    assert DATA_LEN * blocks - DATA_LEN * |c| == DATA_LEN * (blocks - |c|);
  }

  /** The results of tfs_write are those of the desk. */
  lemma DeskWritten(k: Desk, fd: int, data: seq<bv8>, offset: nat, blocks: nat, left: nat, full: bool, ret: nat,
                    bytes: seq<bv8>, told: nat, size: nat)
    requires k.Uses(fd) && |data| > 0 && |k.FileOf(fd).bytes| == DATA_LEN * k.Blocks(fd)
    requires left + blocks == k.free + k.Blocks(fd) && k.Blocks(fd) <= blocks && ret <= |data|
    requires ret > 0 ==> offset + ret <= DATA_LEN * blocks
    requires var padded := Padded(k.FileOf(fd).bytes, DATA_LEN * blocks);
      bytes == if ret > 0 then Splice(padded, offset, data[..ret]) else padded
    requires !full ==> ret == |data| && blocks == BlocksAfter(k.Blocks(fd), offset, |data|)
    requires !full ==> size == Max(k.seats[fd].size, offset + |data|)
    requires !full ==>
      told == if k.Blocks(fd) <= offset / DATA_LEN || k.seats[fd].size < offset + |data| then size
              else k.FileOf(fd).size
    requires full ==>
      left == 0 && ret < |data| && ret == Max(DATA_LEN * blocks, offset) - offset && told == k.FileOf(fd).size
    requires full ==>
      size == if offset < DATA_LEN * (blocks - 1) then Max(k.seats[fd].size, DATA_LEN * (blocks - 1))
              else k.seats[fd].size
    ensures full <==> WriteFails(k, fd, |data|, offset)
    ensures ret == Written(k, fd, |data|, offset)
    ensures AfterWrite(k, fd, data, offset) == k.With(fd, FlatFile(bytes, told), size, left)
  {
    if full {
      assert DATA_LEN * blocks < offset + |data|;
      assert blocks < (offset + |data| - 1) / DATA_LEN + 1;
    } else {
      assert data[..ret] == data;
    }
  }

  /** tfs_write of some bytes to an open file. */
  method WriteSome(g: Fs, fd: nat, data: seq<bv8>, offset: nat, ghost open: map<nat, Entry>)
      returns (ret: nat, ghost d: seq<nat>)
    requires Session(g, open) && DeskOf(g, open).Uses(fd) && g.err == None && |data| > 0
    requires WriteFits(offset, |data|, DeskOf(g, open).Blocks(fd) + DeskOf(g, open).free)
    modifies g`disk, g`marked, g`sh, g`err, g`loadedBitmapBlk, g`buf, g.bitmap
    modifies g.handles`firstBlk, g.handles`currBlk, g.handles`currPos, g.handles`size
    ensures fd < |g.handles| && fd in open
    ensures ret == old(Written(DeskOf(g, open), fd, |data|, offset)) && SameSkeleton(old(Dirs(g)), Dirs(g))
    ensures g.err == if old(WriteFails(DeskOf(g, open), fd, |data|, offset)) then DiskFull else None
    ensures if old(Loses(DeskOf(g, open), WriteCall(fd, data, offset)))
            then RanDry(g, open, old(Dirs(g)), old(DeskOf(g, open)), WriteCall(fd, data, offset), d)
            else Session(g, open) && DeskOf(g, open) == AfterWrite(old(DeskOf(g, open)), fd, data, offset)
  {
    hide Holding, Wf, TreeOf, FilesOf, Flat, BytesAt, RestsOn, TableOk, OthersKept, AfterWrite, Extended, Splice,
      FilesOk, DataChain, Elems, OpenOn, PutEntry, Rows, AllFiles, Placed, SeatsOf, SameSkeleton, WriteFails, Written,
      Padded, Rests, FreeBlocks, WriteFits, Session, RanDry, Adrift;
    DeskAt(g, open, fd);
    var h := g.handles[fd];
    ghost var was, sh0, rests, rows, k := Now(g), g.sh, Rests(g.handles), Rows(g.handles), DeskOf(g, open);
    ghost var T: Listings, e: Entry := Dirs(g), open[fd];
    ghost var c := TakeOut(g, h, e);
    ret, d := WriteHandle(g, h, data, offset, c, e);
    ExtendedIsPadded(was, c, |d|);
    OpenParts(g, h, d, e);
    SameRows(rows, g.handles);
    ghost var told := g.err == None && (|c| <= offset / DATA_LEN || k.seats[fd].size < offset + |data|);
    ghost var it := if told then T[e.dir][e.name].(blk := HeadOf(d), size := h.size) else T[e.dir][e.name];
    ItemPut(T, e, it);
    DeskWritten(k, fd, data, offset, |d|, |FreeBlocks(g)|, g.err != None, ret, Flat(g.disk, d), it.size, h.size);
    if c == [] && d != [] && g.err != None {
      LeftAdrift(g, fd, open, d, was, sh0, rests, rows);
      NowDry(g, open, T, k, WriteCall(fd, data, offset), d);
    } else {
      Resume(g, fd, open, d, was, sh0, rests, rows, it);
    }
  }

  /** The same volume on another disk: a resting handle goes on resting. */
  lemma RestsStill(disk: seq<Block>, disk': seq<Block>, sh: Shape, r: Resting, e: Entry)
    requires RestsOn(disk, sh, r, e) && TreeOf(disk', sh) == TreeOf(disk, sh)
    ensures RestsOn(disk', sh, r, e)
  {
    hide TreeOf, AtSlot, CursorOk;
  }

  lemma FilesStill(disk: seq<Block>, disk': seq<Block>, sh: Shape)
    requires FilesOk(disk, sh) && FilesOk(disk', sh)
    requires TreeOf(disk', sh) == TreeOf(disk, sh) && FilesOf(disk', sh) == FilesOf(disk, sh)
    ensures AllFiles(disk', sh) == AllFiles(disk, sh)
  {
    hide TreeOf, FilesOk, FilesOf, BytesAt, AllFiles;
    FilesAreChains(disk, sh);
    FilesAreChains(disk', sh);
    forall f
      ensures f in AllFiles(disk', sh) <==> f in AllFiles(disk, sh)
      ensures f in AllFiles(disk, sh) ==> AllFiles(disk', sh)[f] == AllFiles(disk, sh)[f]
    {
      FileIn(disk, sh, f);
      FileIn(disk', sh, f);
    }
  }

  /** The volume without the marks of blocks that hang from no entry. */
  lemma WithoutLost(disk: seq<Block>, marked: set<nat>, sh: Shape, d: seq<nat>, e: Entry)
    requires Wf(disk, marked, sh, Elems(d), Detach(e)) && HasFile(TreeOf(disk, sh), e)
    requires TreeOf(disk, sh)[e.dir][e.name].blk == 0
    ensures Wf(disk, marked - Elems(d), sh, {}, Nothing)
  {
    hide OwnOk, DirsOk, FilesOk, RefsOk, DepthOk, MarksOk, TreeOf, FilesOf;
    WfReleased(disk, disk, marked, sh, Elems(d), Detach(e));
    EmptyChain(disk);
    assert Elems([]) == {};
    AttachFile(disk, marked - Elems(d), sh, [], e);
  }

  /** The call on handle fd took the first blocks of its file and ran out. */
  lemma LeftAdrift(g: Fs, fd: nat, open: map<nat, Entry>, d: seq<nat>, was: Snapshot, sh0: Shape, rests: seq<Resting>,
                   rows: seq<Row>)
    requires |g.handles| == MAX_FDS && fd in open && fd < MAX_FDS && d != [] && OpenOn(g, g.handles[fd], d, open[fd])
    requires TableReady(g) && Placed(was.disk, sh0, rests, rows, open)
    requires forall y :: 0 <= y < MAX_FDS ==>
      RowOf(g.handles[y]) == rows[y] && (y != fd ==> Rest(g.handles[y]) == rests[y])
    requires FilesOk(was.disk, sh0) && g.sh == sh0 && Files(g) == FilesOf(was.disk, sh0)
    requires Dirs(g) == TreeOf(was.disk, sh0)
    requires HasFile(Dirs(g), open[fd]) && Dirs(g)[open[fd].dir][open[fd].name].blk == 0
    ensures Adrift(g, open, fd, d) && AllFiles(g.disk, g.sh) == AllFiles(was.disk, sh0)
    ensures SeatsOf(Rests(g.handles), Rows(g.handles), open) ==
      SeatsOf(rests, rows, open)[fd := Seat(open[fd], g.handles[fd].size, rows[fd].count)]
  {
    hide Wf, TreeOf, FilesOf, FilesOk, BytesAt, RestsOn, TableOk, AllFiles, Rests, Rows, Placed, SeatsOf, DataChain,
      Elems, CursorOk;
    var h, e := g.handles[fd], open[fd];
    var r := Blockless(Rest(h));
    PlacedParts(was.disk, sh0, rests, rows, open);
    WithoutLost(g.disk, g.marked, g.sh, d, e);
    WfFilesOk(g.disk, g.marked, g.sh, Elems(d), Detach(e));
    FilesStill(was.disk, g.disk, g.sh);
    forall y | y in open && y != fd ensures RestsOn(g.disk, g.sh, rests[y], open[y]) {
      RestsStill(was.disk, g.disk, g.sh, rests[y], open[y]);
    }
    NoCursor(g.disk, g.marked - Elems(d), g.sh, r, e);
    SameRows(rows, g.handles);
    SameRests(rests[fd := Rest(h)], g.handles);
    assert rests[fd := Rest(h)][fd := r] == rests[fd := r];
    StillPlaced(was.disk, sh0, g.disk, g.sh, rests, rows, open, fd, r);
    SameSeat(rests, rows, open, fd, Rest(h));
  }

  lemma NowDry(g: Fs, open: map<nat, Entry>, T: Listings, k: Desk, c: Call, d: seq<nat>)
    requires Adrift(g, open, FdOf(c), d) && g.handles[FdOf(c)].firstBlk != 0 && FreeBlocks(g) == {} && Dirs(g) == T
    requires k.Uses(FdOf(c)) && (c.WriteCall? || c.TruncCall?)
    requires DeskOf(g, open) == Desk(k.files, k.seats[FdOf(c) := k.seats[FdOf(c)].(size := g.handles[FdOf(c)].size)], 0)
    requires var s := k.seats[FdOf(c)].size;
      g.handles[FdOf(c)].size ==
        if c.WriteCall? && c.offset < DATA_LEN * (k.free - 1) then Max(s, DATA_LEN * (k.free - 1)) else s
    ensures RanDry(g, open, T, k, c, d)
  {
    hide Adrift, AllFiles, SeatsOf;
    assert k.seats[FdOf(c) := k.seats[FdOf(c)]] == k.seats;
  }

  lemma NoCursor(disk: seq<Block>, marked: set<nat>, sh: Shape, r: Resting, e: Entry)
    requires Wf(disk, marked, sh, {}, Nothing) && HasFile(TreeOf(disk, sh), e) && AtSlot(sh, e, r.dirBlk, r.dirItem)
    requires TreeOf(disk, sh)[e.dir][e.name].blk == 0 && r == Blockless(r)
    ensures RestsOn(disk, sh, r, e)
  {
    hide Wf, TreeOf, AtSlot;
    NoChainZero(disk, marked, sh);
  }

  lemma SameSeat(rests: seq<Resting>, rows: seq<Row>, open: map<nat, Entry>, fd: nat, r: Resting)
    requires fd in open && fd < |rests| == |rows|
    ensures SeatsOf(rests[fd := r], rows, open) ==
        SeatsOf(rests, rows, open)[fd := Seat(open[fd], r.size, rows[fd].count)]
  {
  }

  /** A call that only moved the cursor of handle fd: nothing looks different. */
  ghost method ResumeSame(g: Fs, fd: nat, open: map<nat, Entry>, c: seq<nat>, was: Snapshot, sh0: Shape,
                          rests: seq<Resting>,
                          rows: seq<Row>, k: Desk)
    requires |g.handles| == MAX_FDS && fd in open && fd < MAX_FDS && OpenOn(g, g.handles[fd], c, open[fd])
    requires TableReady(g) && Placed(was.disk, sh0, rests, rows, open) && TableOk(rows) && was == Now(g)
    requires Wf(was.disk, was.marked, sh0, {}, Nothing)
    requires forall y :: 0 <= y < MAX_FDS ==>
      RowOf(g.handles[y]) == rows[y] && (y != fd ==> Rest(g.handles[y]) == rests[y])
    requires FilesOk(was.disk, sh0) && g.sh.slots == sh0.slots && Files(g) == FilesOf(was.disk, sh0) - {rests[fd].first}
    requires forall x :: x in sh0.chains && x != rests[fd].first ==> x in g.sh.chains && g.sh.chains[x] == sh0.chains[x]
    requires rests[fd].first == g.handles[fd].firstBlk == HeadOf(c) && rests[fd].size == g.handles[fd].size
    requires HasFile(Dirs(g), open[fd]) && Dirs(g)[open[fd].dir][open[fd].name].blk == HeadOf(c)
    requires Dirs(g) == TreeOf(was.disk, sh0)
    requires DataChain(g.disk, c) && Flat(g.disk, c) == BytesAt(was.disk, sh0, rests[fd].first)
    requires k == Desk(AllFiles(was.disk, sh0), SeatsOf(rests, rows, open), |FreeBlocks(g)|)
    modifies g`sh
    ensures Session(g, open) && DeskOf(g, open) == k && Dirs(g) == old(Dirs(g))
  {
    hide Holding, Wf, TreeOf, FilesOf, Flat, BytesAt, RestsOn, TableOk, FilesOk, DataChain, Elems, OpenOn, Rows,
      AllFiles, SeatsOf, Placed, PutEntry, Rests, FreeBlocks;
    var e := open[fd];
    var it := Dirs(g)[e.dir][e.name];
    ItemPut(Dirs(g), e, it);
    FileIn(was.disk, sh0, e);
    PlacedParts(was.disk, sh0, rests, rows, open);
    SeatsAreOpen(was.disk, sh0, rests, rows, open);
    Resume(g, fd, open, c, was, sh0, rests, rows, it);
    SameFiles(AllFiles(was.disk, sh0), e);
    SameSeats(SeatsOf(rests, rows, open), fd);
  }

  lemma SameFiles(files: map<Entry, FlatFile>, e: Entry)
    requires e in files
    ensures files[e := files[e]] == files
  {
  }

  lemma SameSeats(seats: map<nat, Seat>, fd: nat)
    requires fd in seats
    ensures seats[fd := seats[fd]] == seats
  {
  }

  /** tfs_write of no bytes, at a position inside the blocks of the file. */
  method WriteNone(g: Fs, fd: nat, offset: nat, ghost open: map<nat, Entry>)
    requires Session(g, open) && DeskOf(g, open).Uses(fd) && g.err == None
    requires Fits32(offset, DeskOf(g, open).Blocks(fd) + DeskOf(g, open).free)
    requires offset / DATA_LEN < DeskOf(g, open).Blocks(fd)
    modifies g`disk, g`marked, g`sh, g`err, g`loadedBitmapBlk, g`buf, g.bitmap
    modifies g.handles`firstBlk, g.handles`currBlk, g.handles`currPos, g.handles`size
    ensures Session(g, open) && g.err == None && DeskOf(g, open) == old(DeskOf(g, open)) && Dirs(g) == old(Dirs(g))
  {
    hide Holding, Wf, TreeOf, FilesOf, Flat, BytesAt, RestsOn, TableOk, FilesOk, Elems, OpenOn, PutEntry, Rows,
      AllFiles, Placed, SeatsOf, DataChain, Fits32, LinkedButLast, Rests, FreeBlocks, Session;
    DeskAt(g, open, fd);
    var h := g.handles[fd];
    ghost var was, sh0, rests, rows, k := Now(g), g.sh, Rests(g.handles), Rows(g.handles), DeskOf(g, open);
    ghost var c := TakeOut(g, h, open[fd]);
    OpenParts(g, h, c, open[fd]);
    ghost var d := WriteNothing(g, h, offset, c, open[fd]);
    SameRows(rows, g.handles);
    ResumeSame(g, fd, open, c, was, sh0, rests, rows, k);
  }

  /** tfs_read from an open file. */
  method ReadSome(g: Fs, fd: nat, len: nat, offset: nat, ghost open: map<nat, Entry>) returns (out: seq<bv8>)
    requires Session(g, open) && DeskOf(g, open).Uses(fd) && g.err == None
    requires Fits32(offset, DeskOf(g, open).Blocks(fd)) || DeskOf(g, open).seats[fd].size < offset
    modifies g`disk, g`marked, g`sh, g`err, g`loadedBitmapBlk, g`buf, g.bitmap
    modifies g.handles`firstBlk, g.handles`currBlk, g.handles`currPos, g.handles`size
    ensures Session(g, open) && g.err == None && DeskOf(g, open) == old(DeskOf(g, open)) && Dirs(g) == old(Dirs(g))
    ensures var k := old(DeskOf(g, open)); out == Window(k.FileOf(fd).bytes, k.seats[fd].size, offset, len)
    // as many bytes as asked for, as far as size and blocks reach, and exactly those of the file
    ensures var k := old(DeskOf(g, open)); var bytes, size := k.FileOf(fd).bytes, k.seats[fd].size;
      && |out| <= len && (out != [] ==> offset + |out| <= size && offset + |out| <= |bytes|)
      && (|out| == len || offset + |out| >= size || offset + |out| >= |bytes|)
      && forall i :: 0 <= i < |out| ==> offset + i < |bytes| && out[i] == bytes[offset + i]
  {
    hide Holding, Wf, TreeOf, FilesOf, Flat, BytesAt, RestsOn, TableOk, FilesOk, Elems, OpenOn, PutEntry, Rows,
      AllFiles, Placed, SeatsOf, DataChain, Fits32, Window, Rests, FreeBlocks, Session;
    DeskAt(g, open, fd);
    var h := g.handles[fd];
    ghost var was, sh0, rests, rows, k := Now(g), g.sh, Rests(g.handles), Rows(g.handles), DeskOf(g, open);
    ghost var c := TakeOut(g, h, open[fd]);
    OpenParts(g, h, c, open[fd]);
    out := ReadHandle(g, h, len, offset, c, open[fd]);
    SameRows(rows, g.handles);
    ResumeSame(g, fd, open, c, was, sh0, rests, rows, k);
  }

  /** The results of tfs_trunc are those of the desk. */
  lemma DeskTruncated(k: Desk, fd: int, size: nat, blocks: nat, left: nat, full: bool, bytes: seq<bv8>, told: nat)
    requires k.Uses(fd) && |k.FileOf(fd).bytes| == DATA_LEN * k.Blocks(fd)
    requires left + blocks == k.free + k.Blocks(fd)
    requires bytes == if blocks <= k.Blocks(fd) && !full then k.FileOf(fd).bytes[..DATA_LEN * blocks]
                      else Padded(k.FileOf(fd).bytes, DATA_LEN * blocks)
    requires !full ==> blocks == TruncBlocks(size) && told == k.seats[fd].size
    requires full ==> left == 0 && blocks < TruncBlocks(size) && told == k.FileOf(fd).size && k.Blocks(fd) <= blocks
    ensures full <==> TruncFails(k, fd, size)
    ensures AfterTrunc(k, fd, size) == k.With(fd, FlatFile(bytes, told), k.seats[fd].size, left)
  {
    if !full {
      assert Padded(k.FileOf(fd).bytes, DATA_LEN * blocks)[..DATA_LEN * blocks] == bytes;
    }
  }

  /** tfs_trunc of an open file. */
  method TruncSome(g: Fs, fd: nat, size: nat, ghost open: map<nat, Entry>) returns (ghost d: seq<nat>)
    requires Session(g, open) && DeskOf(g, open).Uses(fd) && g.err == None
    requires Fits32(size, DeskOf(g, open).Blocks(fd) + DeskOf(g, open).free)
    modifies g`disk, g`marked, g`sh, g`err, g`loadedBitmapBlk, g`buf, g.bitmap
    modifies g.handles`firstBlk, g.handles`currBlk, g.handles`currPos, g.handles`size
    ensures fd < |g.handles| && fd in open && SameSkeleton(old(Dirs(g)), Dirs(g))
    ensures g.err == if old(TruncFails(DeskOf(g, open), fd, size)) then DiskFull else None
    ensures if old(Loses(DeskOf(g, open), TruncCall(fd, size)))
            then RanDry(g, open, old(Dirs(g)), old(DeskOf(g, open)), TruncCall(fd, size), d)
            else Session(g, open) && DeskOf(g, open) == AfterTrunc(old(DeskOf(g, open)), fd, size)
  {
    hide Holding, Wf, TreeOf, FilesOf, Flat, BytesAt, RestsOn, TableOk, FilesOk, Elems, OpenOn, PutEntry, Rows,
      AfterTrunc, AllFiles, Placed, SeatsOf, DataChain, Fits32, Extended, Padded, TruncFails, SameSkeleton, Rests,
      FreeBlocks, Session, Adrift, RanDry;
    DeskAt(g, open, fd);
    var h := g.handles[fd];
    ghost var was, sh0, rests, rows, k := Now(g), g.sh, Rests(g.handles), Rows(g.handles), DeskOf(g, open);
    ghost var T: Listings, e: Entry := Dirs(g), open[fd];
    ghost var c := TakeOut(g, h, e);
    d := TruncHandle(g, h, size, c, e);
    if |c| <= |d| { ExtendedIsPadded(was, c, |d|); }
    OpenParts(g, h, d, e);
    SameRows(rows, g.handles);
    ghost var it := if g.err == None then T[e.dir][e.name].(blk := HeadOf(d), size := h.size) else T[e.dir][e.name];
    ItemPut(T, e, it);
    DeskTruncated(k, fd, size, |d|, |FreeBlocks(g)|, g.err != None, Flat(g.disk, d), it.size);
    if c == [] && d != [] && g.err != None {
      LeftAdrift(g, fd, open, d, was, sh0, rests, rows);
      NowDry(g, open, T, k, TruncCall(fd, size), d);
    } else {
      Resume(g, fd, open, d, was, sh0, rests, rows, it);
    }
  }

  // ----- a handle that is adrift -----

  lemma AdriftParts(g: Fs, open: map<nat, Entry>, fd: nat, d: seq<nat>)
    requires Adrift(g, open, fd, d)
    ensures |g.handles| == MAX_FDS && fd < MAX_FDS && fd in open && d != [] && TableReady(g) && TableOk(Rows(g.handles))
    ensures forall i, j :: 0 <= i < j < MAX_FDS ==> g.handles[i] != g.handles[j]
    ensures var h, e := g.handles[fd], open[fd];
      && OpenOn(g, h, d, e) && HasFile(Dirs(g), e) && Dirs(g)[e.dir][e.name].blk == 0 && DataChain(g.disk, d)
      && Placed(g.disk, g.sh, Rests(g.handles)[fd := Blockless(Rest(h))], Rows(g.handles), open)
    ensures Wf(g.disk, g.marked - Elems(d), g.sh, {}, Nothing) && FilesOk(g.disk, g.sh) && Files(g) - {0} == Files(g)
  {
    hide Wf, RestsOn, OpenOn, TreeOf, TableOk, Rows, Rests, Placed, FilesOk, FilesOf, DataChain;
    PlacedParts(g.disk, g.sh, Rests(g.handles)[fd := Blockless(Rest(g.handles[fd]))], Rows(g.handles), open);
    EntryOf(g.disk, g.sh, Blockless(Rest(g.handles[fd])), open[fd]);
    WfFilesOk(g.disk, g.marked - Elems(d), g.sh, {}, Nothing);
    NoChainZero(g.disk, g.marked - Elems(d), g.sh);
    NotAFile(g.disk, g.sh, 0);
    OpenParts(g, g.handles[fd], d, open[fd]);
  }

  /** tfs_write on a handle that is adrift. Only if it succeeds and has to tell the directory item
      of a new size or of new blocks, it tells it of the first block too, and the session is whole
      again with all that the handle wrote before. Otherwise the handle stays adrift. */
  method WriteAdrift(g: Fs, fd: nat, data: seq<bv8>, offset: nat, ghost open: map<nat, Entry>, ghost d: seq<nat>)
      returns (ret: nat, ghost d': seq<nat>)
    requires Adrift(g, open, fd, d) && g.err == None && |data| > 0 && WriteFits(offset, |data|, |d| + |FreeBlocks(g)|)
    modifies g`disk, g`marked, g`sh, g`err, g`loadedBitmapBlk, g`buf, g.bitmap
    modifies g.handles`firstBlk, g.handles`currBlk, g.handles`currPos, g.handles`size
    ensures fd < |g.handles| && fd in open && DataChain(old(g.disk), d) && DataChain(g.disk, d')
    ensures g.err == if BlocksAfter(|d|, offset, |data|) > |d| + |old(FreeBlocks(g))| then DiskFull else None
    ensures |FreeBlocks(g)| + |d'| == |old(FreeBlocks(g))| + |d|
    ensures g.err == None ==>
      && ret == |data| && |d'| == BlocksAfter(|d|, offset, |data|)
      && g.handles[fd].size == Max(old(g.handles[fd].size), offset + |data|)
      && Flat(g.disk, d') == Splice(Padded(old(Flat(g.disk, d)), DATA_LEN * |d'|), offset, data)
    ensures if g.err == None && (|d| <= offset / DATA_LEN || old(g.handles[fd].size) < offset + |data|)
            then Session(g, open) && SameSkeleton(old(Dirs(g)), Dirs(g)) && AllFiles(g.disk, g.sh) ==
                   old(AllFiles(g.disk, g.sh))[open[fd] := FlatFile(Flat(g.disk, d'), g.handles[fd].size)]
            else && Adrift(g, open, fd, d') && Dirs(g) == old(Dirs(g))
                 && AllFiles(g.disk, g.sh) == old(AllFiles(g.disk, g.sh))
  {
    hide Holding, Wf, TreeOf, FilesOf, Flat, BytesAt, RestsOn, TableOk, OthersKept, Extended, Splice, FilesOk,
      DataChain,
      Elems, OpenOn, PutEntry, Rows, AllFiles, Placed, SeatsOf, SameSkeleton, Padded, Rests, FreeBlocks, WriteFits,
      Session, Adrift;
    AdriftParts(g, open, fd, d);
    var h := g.handles[fd];
    ghost var T: Listings, e: Entry, rows := Dirs(g), open[fd], Rows(g.handles);
    ghost var rests := Rests(g.handles)[fd := Blockless(Rest(h))];
    ghost var was, was0, sh0 := Snapshot(g.disk, g.marked - Elems(d)), Now(g), g.sh;
    ret, d' := WriteHandle(g, h, data, offset, d, e);
    ExtendedIsPadded(was0, d, |d'|);
    OpenParts(g, h, d', e);
    SameRows(rows, g.handles);
    if g.err == None && (|d| <= offset / DATA_LEN || old(h.size) < offset + |data|) {
      ghost var it := T[e.dir][e.name].(blk := HeadOf(d'), size := h.size);
      ItemPut(T, e, it);
      Resume(g, fd, open, d', was, sh0, rests, rows, it);
    } else {
      LeftAdrift(g, fd, open, d', was, sh0, rests, rows);
    }
    DataIs(data, ret);
  }

  lemma DataIs(data: seq<bv8>, n: nat)
    requires n <= |data|
    ensures n == |data| ==> data[..n] == data
  {
  }

  /** tfs_trunc on a handle that is adrift: it makes the session whole again exactly if it succeeds,
      as it always tells the directory item then. */
  method TruncAdrift(g: Fs, fd: nat, size: nat, ghost open: map<nat, Entry>, ghost d: seq<nat>)
      returns (ghost d': seq<nat>)
    requires Adrift(g, open, fd, d) && g.err == None && Fits32(size, |d| + |FreeBlocks(g)|)
    modifies g`disk, g`marked, g`sh, g`err, g`loadedBitmapBlk, g`buf, g.bitmap
    modifies g.handles`firstBlk, g.handles`currBlk, g.handles`currPos, g.handles`size
    ensures fd < |g.handles| && fd in open && DataChain(old(g.disk), d) && DataChain(g.disk, d')
    ensures g.err == if TruncBlocks(size) > |d| + |old(FreeBlocks(g))| then DiskFull else None
    ensures |FreeBlocks(g)| + |d'| == |old(FreeBlocks(g))| + |d|
    ensures g.err == None ==>
      && |d'| == TruncBlocks(size)
      && Flat(g.disk, d') == Padded(old(Flat(g.disk, d)), DATA_LEN * |d'|)[..DATA_LEN * |d'|]
    ensures if g.err == None
            then Session(g, open) && SameSkeleton(old(Dirs(g)), Dirs(g)) && AllFiles(g.disk, g.sh) ==
                   old(AllFiles(g.disk, g.sh))[open[fd] := FlatFile(Flat(g.disk, d'), old(g.handles[fd].size))]
            else && Adrift(g, open, fd, d') && Dirs(g) == old(Dirs(g))
                 && AllFiles(g.disk, g.sh) == old(AllFiles(g.disk, g.sh))
  {
    hide Holding, Wf, TreeOf, FilesOf, Flat, BytesAt, RestsOn, TableOk, OthersKept, Extended, FilesOk, DataChain,
      Elems, OpenOn, PutEntry, Rows, AllFiles, Placed, SeatsOf, SameSkeleton, Padded, Rests, FreeBlocks, Fits32,
      Session, Adrift;
    AdriftParts(g, open, fd, d);
    var h := g.handles[fd];
    ghost var T: Listings, e: Entry, rows := Dirs(g), open[fd], Rows(g.handles);
    ghost var rests := Rests(g.handles)[fd := Blockless(Rest(h))];
    ghost var was, was0, sh0 := Snapshot(g.disk, g.marked - Elems(d)), Now(g), g.sh;
    d' := TruncHandle(g, h, size, d, e);
    OpenParts(g, h, d', e);
    SameRows(rows, g.handles);
    CutOrPadded(was0, d, |d'|);
    if g.err == None {
      ghost var it := T[e.dir][e.name].(blk := HeadOf(d'), size := h.size);
      ItemPut(T, e, it);
      Resume(g, fd, open, d', was, sh0, rests, rows, it);
    } else {
      LeftAdrift(g, fd, open, d', was, sh0, rests, rows);
    }
  }

  lemma CutOrPadded(was: Snapshot, c: seq<nat>, n: nat)
    requires DataChain(was.disk, c)
    ensures n <= |c| ==> Padded(Flat(was.disk, c), DATA_LEN * n)[..DATA_LEN * n] == Flat(was.disk, c)[..DATA_LEN * n]
    ensures |c| <= n ==> Padded(Flat(was.disk, c), DATA_LEN * n)[..DATA_LEN * n] == Extended(was, c, n)
  {
    if |c| <= n { ExtendedIsPadded(was, c, n); }
  }

  // ----- with the checks of the file descriptor -----

  /** The range check and the usage check that all calls on a file descriptor begin with. */
  method CheckFd(g: Fs, fd: int) returns (ok: bool)
    requires |g.handles| == MAX_FDS
    modifies g`err
    ensures ok <==> 0 <= fd < MAX_FDS && g.handles[fd].usageCount > 0
    ensures g.err == if ok then old(g.err) else InvalFd
  {
    if fd < 0 || fd >= MAX_FDS {
      g.err := InvalFd;
      return false;
    }
    if g.handles[fd].usageCount <= 0 {
      g.err := InvalFd;
      return false;
    }
    return true;
  }

  lemma DeskUses(g: Fs, open: map<nat, Entry>, fd: int)
    requires Session(g, open)
    ensures |g.handles| == MAX_FDS && (DeskOf(g, open).Uses(fd) <==> 0 <= fd < MAX_FDS && g.handles[fd].usageCount > 0)
  {
    hide Holding, Wf, AllFiles, RestsOn, Placed, TableReady;
    DeskAt(g, open, fd);
  }

  /** tfs_write. See WriteNothing for writes of no bytes past the end. */
  method Write(g: Fs, fd: int, data: seq<bv8>, offset: nat, ghost open: map<nat, Entry>)
      returns (ret: nat, ghost d: seq<nat>)
    requires Session(g, open) && InReach(DeskOf(g, open), WriteCall(fd, data, offset))
    modifies g`disk, g`marked, g`sh, g`err, g`loadedBitmapBlk, g`buf, g.bitmap
    modifies g.handles`firstBlk, g.handles`currBlk, g.handles`currPos, g.handles`size
    ensures old(g.err) == NoDev ==>
      && g.err == NoDev && ret == 0
      && Session(g, open) && DeskOf(g, open) == old(DeskOf(g, open)) && Dirs(g) == old(Dirs(g))
    ensures old(g.err) != NoDev ==>
      var c, o := WriteCall(fd, data, offset), Outcome(g.err, -1, ret, []);
      && Gives(old(DeskOf(g, open)), g.currentDirBlk, c, o)
      && (if old(Loses(DeskOf(g, open), c))
          then RanDry(g, open, old(Dirs(g)), old(DeskOf(g, open)), c, d)
          else && Session(g, open) && SameSkeleton(old(Dirs(g)), Dirs(g))
               && DeskOf(g, open) == After(old(DeskOf(g, open)), g.currentDirBlk, c, o))
  {
    hide Session, TreeOf, AllFiles, SeatsOf, OpenOn, SameSkeleton, AfterWrite, WriteFails, Written, TableReady,
      Fits32, WriteFits, RanDry;
    ret, d := 0, [];
    if g.err == NoDev {
      return;
    }
    g.err := None;
    DeskUses(g, open, fd);
    SkeletonSame(Dirs(g));
    var ok := CheckFd(g, fd);
    if !ok {
      return;
    }
    if data == [] {
      NothingWritten(DeskOf(g, open), fd, offset);
      WriteNone(g, fd, offset, open);
    } else {
      ret, d := WriteSome(g, fd, data, offset, open);
    }
  }

  lemma SkeletonSame(T: Listings)
    ensures SameSkeleton(T, T)
  {
  }

  /** tfs_read. */
  method Read(g: Fs, fd: int, len: nat, offset: nat, ghost open: map<nat, Entry>) returns (out: seq<bv8>)
    requires Session(g, open) && InReach(DeskOf(g, open), ReadCall(fd, len, offset))
    modifies g`disk, g`marked, g`sh, g`err, g`loadedBitmapBlk, g`buf, g.bitmap
    modifies g.handles`firstBlk, g.handles`currBlk, g.handles`currPos, g.handles`size
    ensures Session(g, open) && DeskOf(g, open) == old(DeskOf(g, open)) && Dirs(g) == old(Dirs(g))
    ensures old(g.err) == NoDev ==> g.err == NoDev && out == []
    ensures old(g.err) != NoDev ==>
      Gives(old(DeskOf(g, open)), g.currentDirBlk, ReadCall(fd, len, offset), Outcome(g.err, -1, 0, out))
    // as many bytes as asked for, as far as size and blocks reach, and exactly those of the file
    ensures old(g.err) != NoDev && old(DeskOf(g, open).Uses(fd)) ==>
      var k := old(DeskOf(g, open)); var bytes, size := k.FileOf(fd).bytes, k.seats[fd].size;
      && |out| <= len && (out != [] ==> offset + |out| <= size && offset + |out| <= |bytes|)
      && (|out| == len || offset + |out| >= size || offset + |out| >= |bytes|)
      && forall i :: 0 <= i < |out| ==> offset + i < |bytes| && out[i] == bytes[offset + i]
    ensures !old(DeskOf(g, open).Uses(fd)) ==> out == []
  {
    hide Session, TreeOf, AllFiles, SeatsOf, TableReady, Fits32, Window;
    out := [];
    if g.err == NoDev {
      return;
    }
    g.err := None;
    DeskUses(g, open, fd);
    var ok := CheckFd(g, fd);
    if ok {
      out := ReadSome(g, fd, len, offset, open);
    }
  }

  /** tfs_trunc. */
  method Trunc(g: Fs, fd: int, size: nat, ghost open: map<nat, Entry>) returns (ghost d: seq<nat>)
    requires Session(g, open) && InReach(DeskOf(g, open), TruncCall(fd, size))
    modifies g`disk, g`marked, g`sh, g`err, g`loadedBitmapBlk, g`buf, g.bitmap
    modifies g.handles`firstBlk, g.handles`currBlk, g.handles`currPos, g.handles`size
    ensures old(g.err) == NoDev ==>
      g.err == NoDev && Session(g, open) && DeskOf(g, open) == old(DeskOf(g, open)) && Dirs(g) == old(Dirs(g))
    ensures old(g.err) != NoDev ==>
      var c, o := TruncCall(fd, size), Outcome(g.err, -1, 0, []);
      && Gives(old(DeskOf(g, open)), g.currentDirBlk, c, o)
      && (if old(Loses(DeskOf(g, open), c))
          then RanDry(g, open, old(Dirs(g)), old(DeskOf(g, open)), c, d)
          else && Session(g, open) && SameSkeleton(old(Dirs(g)), Dirs(g))
               && DeskOf(g, open) == After(old(DeskOf(g, open)), g.currentDirBlk, c, o))
  {
    hide Session, TreeOf, AllFiles, SeatsOf, OpenOn, SameSkeleton, AfterTrunc, TruncFails, TableReady, Fits32, RanDry;
    d := [];
    if g.err == NoDev {
      return;
    }
    g.err := None;
    DeskUses(g, open, fd);
    SkeletonSame(Dirs(g));
    var ok := CheckFd(g, fd);
    if ok {
      d := TruncSome(g, fd, size, open);
    }
  }

  // ----- tfs_open and tfs_close in a session -----

  /** A place in a directory block belongs to one entry. */
  lemma PlaceUnique(disk: seq<Block>, marked: set<nat>, sh: Shape, e: Entry, f: Entry, blk: nat, k: nat)
    requires Wf(disk, marked, sh, {}, Nothing) && AtSlot(sh, e, blk, k) && AtSlot(sh, f, blk, k)
    ensures e == f
  {
    hide FilesOk, RefsOk, DepthOk, MarksOk, TreeOf, Packed, DirChain;
    var s, t := sh.slots[e.dir][e.name], sh.slots[f.dir][f.name];
    DirOf(disk, sh, e.dir);
    DirOf(disk, sh, f.dir);
    assert ChainOwned(sh, e.dir) && ChainOwned(sh, f.dir);
    assert sh.chains[e.dir][s.i] in sh.chains[e.dir] && sh.chains[f.dir][t.i] in sh.chains[f.dir];
    assert HoldsName(Lists(disk, sh.chains[e.dir]), s, e.name) && HoldsName(Lists(disk, sh.chains[f.dir]), t, f.name);
  }

  /** A handle that was just initialised from an item rests on it. */
  lemma FreshRests(g: Fs, r: Resting, n: Name)
    requires Inv(g) && IsFile(g, n)
    requires r == Resting(SlotBlock(g, n), SlotItem(g, n), ItemOf(g, n).size, ItemOf(g, n).blk, ItemOf(g, n).blk, 0)
    ensures RestsOn(g.disk, g.sh, r, Entry(g.currentDirBlk, n))
  {
    hide Wf, TreeOf, DataChain, Lists, Listing;
    InDirs(g);
    HereLive(g, {}, Nothing);
    SlotOfEntry(g, {}, Nothing, n);
    FileAt(g.disk, g.marked, g.sh, Entry(g.currentDirBlk, n));
    NoChainZero(g.disk, g.marked, g.sh);
  }

  /** A handle at the place of the current directory's entry n is open on that entry. */
  lemma SamePlace(g: Fs, r: Resting, f: Entry, n: Name)
    requires Inv(g) && IsFile(g, n) && RestsOn(g.disk, g.sh, r, f)
    requires r.dirBlk == SlotBlock(g, n) && r.dirItem == SlotItem(g, n)
    ensures f == Entry(g.currentDirBlk, n)
  {
    hide Wf;
    var it := Here(g)[n];
    var q := Resting(SlotBlock(g, n), SlotItem(g, n), it.size, it.blk, it.blk, 0);
    FreshRests(g, q, n);
    PlaceUnique(g.disk, g.marked, g.sh, f, Entry(g.currentDirBlk, n), r.dirBlk, r.dirItem);
  }

  /** The open count at the place of an entry is the count of the handle that rests on it. */
  lemma CountOfSeat(disk: seq<Block>, marked: set<nat>, sh: Shape, rests: seq<Resting>, rows: seq<Row>,
                    open: map<nat, Entry>,
                    e: Entry, b: nat, k: nat)
    requires Wf(disk, marked, sh, {}, Nothing) && Placed(disk, sh, rests, rows, open) && TableOk(rows)
    requires AtSlot(sh, e, b, k)
    ensures forall fd :: fd in open && open[fd] == e ==>
      fd < |rows| && TotalCount(rows, b, k) == rows[fd].count && rows[fd].At(b, k)
    ensures TotalCount(rows, b, k) > 0 <==> exists fd :: fd in open && open[fd] == e
  {
    hide Wf, TreeOf, TotalCount, TableOk, CursorOk;
    forall fd | fd in open && open[fd] == e ensures TotalCount(rows, b, k) == rows[fd].count && rows[fd].At(b, k) {
      LiveIsTotal(rows, fd);
    }
    if TotalCount(rows, b, k) > 0 {
      var i := LiveRow(rows, b, k);
      PlaceUnique(disk, marked, sh, open[i], e, b, k);
    }
  }

  lemma LiveRow(rows: seq<Row>, b: nat, k: nat) returns (i: nat)
    requires TotalCount(rows, b, k) > 0
    ensures i < |rows| && rows[i].At(b, k) && rows[i].count > 0
  {
    if forall j :: 0 <= j < |rows| && rows[j].At(b, k) ==> rows[j].count == 0 {
      AllClosed(rows, b, k);
    }
    i :| 0 <= i < |rows| && rows[i].At(b, k) && rows[i].count > 0;
  }

  /** The open count of the current directory's file n is the count of the seat at it. */
  lemma CountAtSeat(g: Fs, open: map<nat, Entry>, n: Name)
    requires Session(g, open) && IsFile(g, n)
    ensures var e, k := Entry(g.currentDirBlk, n), DeskOf(g, open);
      && e in k.files && (OpenTotal(g, n) > 0 <==> Seated(k, e))
      && (forall fd :: fd in k.seats && k.seats[fd].e == e ==> OpenTotal(g, n) == k.seats[fd].count)
      && k.files[e] == FlatFile(BytesAt(g.disk, g.sh, ItemOf(g, n).blk), ItemOf(g, n).size)
  {
    hide Wf, TreeOf, TotalCount, TableOk, RestsOn, Placed, AllFiles, BytesAt, SlotBlock, SlotItem, Rows;
    var e := Entry(g.currentDirBlk, n);
    var r := Resting(SlotBlock(g, n), SlotItem(g, n), Here(g)[n].size, Here(g)[n].blk, Here(g)[n].blk, 0);
    FreshRests(g, r, n);
    EntryOf(g.disk, g.sh, r, e);
    InDirs(g);
    FileIn(g.disk, g.sh, e);
    CountOfSeat(g.disk, g.marked, g.sh, Rests(g.handles), Rows(g.handles), open, e, r.dirBlk, r.dirItem);
    SeatsAreOpen(g.disk, g.sh, Rests(g.handles), Rows(g.handles), open);
  }

  /** All handles are in use exactly if the desk is crowded. */
  lemma CrowdedMeansFull(g: Fs, open: map<nat, Entry>)
    requires Session(g, open)
    ensures Crowded(DeskOf(g, open)) <==> !FreeHandle(g.handles)
    ensures |g.handles| == MAX_FDS
    ensures forall fd: nat :: fd in DeskOf(g, open).seats <==> fd < MAX_FDS && g.handles[fd].usageCount > 0
  {
    hide Holding, RestsOn, Placed, AllFiles, TableOk;
    PlacedParts(g.disk, g.sh, Rests(g.handles), Rows(g.handles), open);
    SeatsAreOpen(g.disk, g.sh, Rests(g.handles), Rows(g.handles), open);
  }

  /** The files of the live handles after handle fd, resting on e, got the count of `row`. */
  ghost function Reopened(open: map<nat, Entry>, fd: nat, e: Entry, count: nat): map<nat, Entry>
  {
    if count == 0 then open - {fd} else open[fd := e]
  }

  lemma HandleChanged(disk: seq<Block>, sh: Shape, rests: seq<Resting>, rows: seq<Row>, open: map<nat, Entry>, fd: nat,
                      r: Resting, row: Row, e: Entry)
    requires Placed(disk, sh, rests, rows, open) && fd < MAX_FDS
    requires RestsOn(disk, sh, r, e) && row.At(r.dirBlk, r.dirItem)
    ensures var open' := Reopened(open, fd, e, row.count);
      && Placed(disk, sh, rests[fd := r], rows[fd := row], open')
      && SeatsOf(rests[fd := r], rows[fd := row], open') ==
           if row.count == 0 then SeatsOf(rests, rows, open) - {fd}
           else SeatsOf(rests, rows, open)[fd := Seat(e, r.size, row.count)]
  {
    hide RestsOn;
  }

  lemma OpenedAs(disk: seq<Block>, sh: Shape, rests: seq<Resting>, rows: seq<Row>, open: map<nat, Entry>, fd: nat,
                 r: Resting, row: Row, e: Entry, free: nat)
    requires Placed(disk, sh, rests, rows, open) && fd < MAX_FDS && RestsOn(disk, sh, r, e)
    requires row.At(r.dirBlk, r.dirItem)
    requires e in AllFiles(disk, sh) && row.count == rows[fd].count + Increment(rows[fd].count)
    requires if rows[fd].count > 0 then fd in open && open[fd] == e && rests[fd] == r
             else r.size == AllFiles(disk, sh)[e].size
    ensures var k := Desk(AllFiles(disk, sh), SeatsOf(rests, rows, open), free);
      k.(seats := SeatsOf(rests[fd := r], rows[fd := row], Reopened(open, fd, e, row.count))) == AfterOpen(k, e, fd)
  {
    hide RestsOn, AllFiles;
    HandleChanged(disk, sh, rests, rows, open, fd, r, row, e);
    SeatsAreOpen(disk, sh, rests, rows, open);
  }

  /** tfs_open. `beyond` is what stands in memory behind the handle table; it matters only if all
      handles are in use and none is open on the file. */
  method OpenFile(g: Fs, name: CString, beyond: nat, ghost open: map<nat, Entry>)
      returns (fd: int, ghost open': map<nat, Entry>)
    requires Session(g, open)
    requires beyond > 0 || !Crowded(DeskOf(g, open)) || Seated(DeskOf(g, open), Entry(g.currentDirBlk, Stored(name)))
    modifies g`disk, g`marked, g`sh, g`err, g`loadedBitmapBlk, g`buf, g`loadedDirBlk, g.bitmap, g.handles
    ensures Session(g, open') && g.disk == old(g.disk) && g.sh == old(g.sh) && g.marked == old(g.marked)
    ensures old(g.err) == NoDev ==> g.err == NoDev && fd == -1 && DeskOf(g, open') == old(DeskOf(g, open))
    ensures old(g.err) != NoDev ==>
      var c, o := OpenCall(name), Outcome(g.err, fd, 0, []);
      && Gives(old(DeskOf(g, open)), g.currentDirBlk, c, o)
      && DeskOf(g, open') == After(old(DeskOf(g, open)), g.currentDirBlk, c, o)
  {
    hide Session, Holding, TreeOf, AllFiles, BytesAt, RestsOn, TableReady, Stored, Recounted, TotalCount, FreeHandle,
      Rows, SlotBlock, SlotItem, Listing, Placed, SeatsOf, TableFull, Seated, Crowded, ItemOf, Here, OpenTotal,
      NoHandle, AfterOpen, Increment, AtSlot, OpensAs, Rests;
    SessionParts(g, open);
    CrowdedMeansFull(g, open);
    ghost var n, k, e := Stored(name), DeskOf(g, open), Entry(g.currentDirBlk, Stored(name));
    ghost var rests, rows := Rests(g.handles), Rows(g.handles);
    NamedFile(g, open, n);
    fd := Open(g, name, beyond, {}, Nothing);
    open' := open;
    if fd == -1 {
      SameRests(rests, g.handles);
      SameRows(rows, g.handles);
      SessionMade(g, open);
      return;
    }
    ghost var r, row := Rest(g.handles[fd]), RowOf(g.handles[fd]);
    SameRests(rests[fd := r], g.handles);
    SameRows(rows[fd := row], g.handles);
    if rows[fd].count > 0 {
      assert rests[fd] == r;
      PlacedAt(g.disk, g.sh, rests, rows, open, fd);
      SamePlace(g, r, open[fd], n);
    } else {
      FreshRests(g, r, n);
    }
    OpenedAs(g.disk, g.sh, rests, rows, open, fd, r, row, e, k.free);
    HandleChanged(g.disk, g.sh, rests, rows, open, fd, r, row, e);
    open' := Reopened(open, fd, e, row.count);
    SessionMade(g, open');
    OpenSeat(k, e, fd, rows[fd].count, open);
  }

  lemma PlacedAt(disk: seq<Block>, sh: Shape, rests: seq<Resting>, rows: seq<Row>, open: map<nat, Entry>, fd: nat)
    requires Placed(disk, sh, rests, rows, open) && fd < MAX_FDS && rows[fd].count > 0
    ensures fd in open && RestsOn(disk, sh, rests[fd], open[fd]) && rows[fd].At(rests[fd].dirBlk, rests[fd].dirItem)
    ensures SeatsOf(rests, rows, open).Keys == open.Keys && SeatsOf(rests, rows, open)[fd].e == open[fd]
  {
    hide RestsOn, AllFiles;
    SeatsAreOpen(disk, sh, rests, rows, open);
  }

  lemma OpenSeat(k: Desk, e: Entry, fd: nat, count: nat, open: map<nat, Entry>)
    requires count > 0 <==> Seated(k, e)
    requires count > 0 ==> fd in k.seats && k.seats[fd].e == e
    requires count == 0 ==> fd < MAX_FDS && fd !in k.seats && forall x: nat :: x < fd ==> x in k.seats
    ensures OpensAs(k, e, fd)
  {
  }

  lemma SessionMade(g: Fs, open: map<nat, Entry>)
    requires Inv(g) && TableReady(g) && Placed(g.disk, g.sh, Rests(g.handles), Rows(g.handles), open)
    ensures Session(g, open)
  {
  }

  /** What the desk says about the name of an open call. */
  lemma NamedFile(g: Fs, open: map<nat, Entry>, n: Name)
    requires Session(g, open)
    ensures var e, k := Entry(g.currentDirBlk, n), DeskOf(g, open);
      && (IsFile(g, n) <==> e in k.files)
      && (IsFile(g, n) ==> (NoHandle(g, n) <==> !Seated(k, e) && Crowded(k)) && (OpenTotal(g, n) > 0 <==> Seated(k, e)))
      && (IsFile(g, n) ==> ItemOf(g, n).size == k.files[e].size)
  {
    hide Wf, RestsOn, Placed, TreeOf, BytesAt, TotalCount, Seated, Crowded, TableOk, AllFiles, FreeHandle;
    InDirs(g);
    FileIn(g.disk, g.sh, Entry(g.currentDirBlk, n));
    CrowdedMeansFull(g, open);
    if IsFile(g, n) { CountAtSeat(g, open, n); }
  }

  lemma SessionParts(g: Fs, open: map<nat, Entry>)
    requires Session(g, open)
    ensures Inv(g) && TableReady(g) && Placed(g.disk, g.sh, Rests(g.handles), Rows(g.handles), open)
    ensures |g.handles| == MAX_FDS && forall i, j :: 0 <= i < j < MAX_FDS ==> g.handles[i] != g.handles[j]
  {
  }

  lemma ClosedAs(disk: seq<Block>, sh: Shape, rests: seq<Resting>, rows: seq<Row>, open: map<nat, Entry>, fd: nat,
                 count: nat,
                 free: nat)
    requires Placed(disk, sh, rests, rows, open) && fd in open && fd < MAX_FDS && count + 1 == rows[fd].count
    ensures var k, open' := Desk(AllFiles(disk, sh), SeatsOf(rests, rows, open), free),
        Reopened(open, fd, open[fd], count);
      && fd in k.seats && k.Uses(fd) && Placed(disk, sh, rests, rows[fd := rows[fd].(count := count)], open')
      && k.(seats := SeatsOf(rests, rows[fd := rows[fd].(count := count)], open')) == AfterClose(k, fd)
  {
    hide RestsOn, AllFiles;
    SeatsAreOpen(disk, sh, rests, rows, open);
    HandleChanged(disk, sh, rests, rows, open, fd, rests[fd], rows[fd].(count := count), open[fd]);
    assert rests[fd := rests[fd]] == rests;
  }

  /** tfs_close. */
  method CloseFile(g: Fs, fd: int, ghost open: map<nat, Entry>) returns (ghost open': map<nat, Entry>)
    requires Session(g, open)
    modifies g`err, g.handles
    ensures Session(g, open')
    ensures old(g.err) == NoDev ==> g.err == NoDev && DeskOf(g, open') == old(DeskOf(g, open))
    ensures old(g.err) != NoDev ==>
      var c, o := CloseCall(fd), Outcome(g.err, -1, 0, []);
      && Gives(old(DeskOf(g, open)), g.currentDirBlk, c, o)
      && DeskOf(g, open') == After(old(DeskOf(g, open)), g.currentDirBlk, c, o)
  {
    hide Session, Holding, AllFiles, RestsOn, TableReady, Recounted, TotalCount, Rows, Placed, SeatsOf, AfterClose,
      Rests, Reopened;
    SessionParts(g, open);
    DeskUses(g, open, fd);
    ghost var rests, rows, k := Rests(g.handles), Rows(g.handles), DeskOf(g, open);
    Close(g, fd);
    open' := open;
    SameRests(rests, g.handles);
    if g.err == None {
      ghost var count := g.handles[fd].usageCount;
      PlacedAt(g.disk, g.sh, rests, rows, open, fd);
      open' := Reopened(open, fd, open[fd], count);
      SameRows(rows[fd := rows[fd].(count := count)], g.handles);
      ClosedAs(g.disk, g.sh, rests, rows, open, fd, count, k.free);
    } else {
      SameRows(rows, g.handles);
    }
    SessionMade(g, open');
  }

  // ----- runs of calls -----

  /** A file and the free blocks together are no more than the drive. */
  lemma BlocksBound(g: Fs, open: map<nat, Entry>)
    requires Session(g, open)
    ensures forall fd :: DeskOf(g, open).Uses(fd) ==> DeskOf(g, open).Blocks(fd) + DeskOf(g, open).free <= g.blkCount
  {
    hide Wf, AllFiles, RestsOn, Placed, TableReady, TreeOf, BytesAt;
    forall fd | DeskOf(g, open).Uses(fd) ensures DeskOf(g, open).Blocks(fd) + DeskOf(g, open).free <= g.blkCount {
      DeskAt(g, open, fd);
      ChainAndFree(g.disk, g.marked, g.sh, g.handles[fd].firstBlk);
    }
  }

  lemma ChainAndFree(disk: seq<Block>, marked: set<nat>, sh: Shape, x: nat)
    requires Wf(disk, marked, sh, {}, Nothing)
    ensures |BytesAt(disk, sh, x)| / DATA_LEN + |FreeOf(Snapshot(disk, marked))| <= |disk|
  {
    hide DirsOk, FilesOk, RefsOk, DepthOk, TreeOf;
    var used := set b | 0 <= b < |disk| && b in marked;
    UsedIsMarked(|disk|, marked);
    assert FreeOf(Snapshot(disk, marked)) == set b | 0 <= b < |disk| && b !in marked;
    if x in sh.chains && x !in sh.slots && DataChain(disk, sh.chains[x]) {
      var c := sh.chains[x];
      DistinctCard(c);
      ChainInRange(disk, c);
      MarksImply(|disk|, marked, sh, {});
      ChainAt(disk, sh, x);
      SubsetCard(Elems(c), used);
    }
  }

  /** A file has no blocks exactly if its handle has no first block. */
  lemma EmptyHandle(g: Fs, open: map<nat, Entry>, fd: int)
    requires Session(g, open) && DeskOf(g, open).Uses(fd)
    ensures 0 <= fd < |g.handles| && (DeskOf(g, open).Blocks(fd) == 0 <==> g.handles[fd].firstBlk == 0)
    ensures |DeskOf(g, open).FileOf(fd).bytes| == DATA_LEN * DeskOf(g, open).Blocks(fd)
  {
    hide Wf, AllFiles, RestsOn, Placed, TableReady, TreeOf, BytesAt;
    DeskAt(g, open, fd);
    HeadInBooks(g.disk, g.marked, g.sh, open[fd]);
    NoChainZero(g.disk, g.marked, g.sh);
    BytesOfChain(g.disk, g.marked, g.sh, g.handles[fd].firstBlk);
  }

  lemma BytesOfChain(disk: seq<Block>, marked: set<nat>, sh: Shape, x: nat)
    requires Wf(disk, marked, sh, {}, Nothing) && x !in sh.slots
    ensures |BytesAt(disk, sh, x)| / DATA_LEN == 0 <==> x !in sh.chains
    ensures |BytesAt(disk, sh, x)| % DATA_LEN == 0
  {
    hide DirsOk, RefsOk, DepthOk, MarksOk, TreeOf, DataAt, Distinct;
    if x in sh.chains { ChainAt(disk, sh, x); }
  }

  lemma NotLost(k: Desk, fd: int, data: seq<bv8>, offset: nat, size: nat)
    requires k.Uses(fd) && k.Blocks(fd) == 0 && k.free == 0 && |k.FileOf(fd).bytes| == 0
    ensures |data| > 0 && WriteFails(k, fd, |data|, offset) ==>
      AfterWrite(k, fd, data, offset).Uses(fd) && AfterWrite(k, fd, data, offset).Blocks(fd) == 0
    ensures TruncFails(k, fd, size) ==> AfterTrunc(k, fd, size).Uses(fd) && AfterTrunc(k, fd, size).Blocks(fd) == 0
  {
  }

  /** The first block of the file behind a descriptor, 0 for a descriptor that is not open. */
  method FirstOf(g: Fs, fd: int) returns (blk: nat)
    requires |g.handles| == MAX_FDS
    ensures blk == if 0 <= fd < MAX_FDS && g.handles[fd].usageCount > 0 then g.handles[fd].firstBlk else 0
  {
    blk := 0;
    if 0 <= fd < MAX_FDS && g.handles[fd].usageCount > 0 {
      blk := g.handles[fd].firstBlk;
    }
  }

  /** One call of a run, on a drive whose 32-bit limits it respects. `lost` tells that it took the
      first blocks of a file and then ran out. */
  method OneCall(g: Fs, c: Call, beyond: nat, ghost open: map<nat, Entry>)
      returns (o: Outcome, lost: bool, ghost open': map<nat, Entry>, ghost d: seq<nat>)
    requires Session(g, open) && g.err != NoDev && beyond > 0 && AlwaysInReach(c, g.blkCount)
    modifies g`disk, g`marked, g`sh, g`err, g`loadedBitmapBlk, g`buf, g`loadedDirBlk, g.bitmap, g.handles
    ensures g.err != NoDev && o.err == g.err && Gives(old(DeskOf(g, open)), g.currentDirBlk, c, o)
    ensures lost <==> old(Loses(DeskOf(g, open), c))
    ensures !lost ==>
      && Session(g, open') && SameSkeleton(old(Dirs(g)), Dirs(g))
      && DeskOf(g, open') == After(old(DeskOf(g, open)), g.currentDirBlk, c, o)
    ensures lost ==> open' == open && RanDry(g, open, old(Dirs(g)), old(DeskOf(g, open)), c, d)
  {
    hide Session, RanDry, TreeOf, AllFiles, SeatsOf, SameSkeleton, AfterWrite, AfterTrunc, AfterOpen, AfterClose,
      WriteFails,
      TruncFails,
      Written, Fits32, WriteFits, OpenOn, Window, Seated, Crowded, OpensAs;
    BlocksBound(g, open);
    AlwaysMeansNow(DeskOf(g, open), c, g.blkCount);
    SkeletonSame(Dirs(g));
    open', lost, d := open, false, [];
    match c {
      case OpenCall(name) =>
        var fd;
        fd, open' := OpenFile(g, name, beyond, open);
        o := Outcome(g.err, fd, 0, []);
      case CloseCall(fd) =>
        open' := CloseFile(g, fd, open);
        o := Outcome(g.err, -1, 0, []);
      case WriteCall(fd, data, offset) =>
        o, lost, d := WriteOnce(g, fd, data, offset, open);
      case ReadCall(fd, len, offset) =>
        var out := Read(g, fd, len, offset, open);
        o := Outcome(g.err, -1, 0, out);
      case TruncCall(fd, size) =>
        o, lost, d := TruncOnce(g, fd, size, open);
    }
  }

  method WriteOnce(g: Fs, fd: int, data: seq<bv8>, offset: nat, ghost open: map<nat, Entry>)
      returns (o: Outcome, lost: bool, ghost d: seq<nat>)
    requires Session(g, open) && g.err != NoDev && InReach(DeskOf(g, open), WriteCall(fd, data, offset)) && data != []
    modifies g`disk, g`marked, g`sh, g`err, g`loadedBitmapBlk, g`buf, g.bitmap
    modifies g.handles`firstBlk, g.handles`currBlk, g.handles`currPos, g.handles`size
    ensures g.err != NoDev && o.err == g.err
    ensures var k, c := old(DeskOf(g, open)), WriteCall(fd, data, offset);
      && Gives(k, g.currentDirBlk, c, o) && (lost <==> Loses(k, c))
      && (if lost then RanDry(g, open, old(Dirs(g)), k, c, d)
          else && Session(g, open) && SameSkeleton(old(Dirs(g)), Dirs(g))
               && DeskOf(g, open) == After(k, g.currentDirBlk, c, o))
  {
    hide Session, TreeOf, AllFiles, SeatsOf, SameSkeleton, AfterWrite, WriteFails, Written, Fits32, WriteFits, OpenOn,
      RanDry, Holding, DeskOf, FilesOk;
    ghost var k, T := DeskOf(g, open), Dirs(g);
    DeskUses(g, open, fd);
    if k.Uses(fd) { EmptyHandle(g, open, fd); }
    var first := FirstOf(g, fd);
    var ret;
    ret, d := Write(g, fd, data, offset, open);
    o := Outcome(g.err, -1, ret, []);
    if Loses(k, WriteCall(fd, data, offset)) {
      DryHandle(g, open, T, k, WriteCall(fd, data, offset), d);
    }
    var now := FirstOf(g, fd);
    lost := g.err == DiskFull && first == 0 && now != 0;
    if g.err == DiskFull && first == 0 && k.free == 0 {
      NotLost(k, fd, data, offset, 0);
      EmptyHandle(g, open, fd);
    }
  }

  method TruncOnce(g: Fs, fd: int, size: nat, ghost open: map<nat, Entry>)
      returns (o: Outcome, lost: bool, ghost d: seq<nat>)
    requires Session(g, open) && g.err != NoDev && InReach(DeskOf(g, open), TruncCall(fd, size))
    modifies g`disk, g`marked, g`sh, g`err, g`loadedBitmapBlk, g`buf, g.bitmap
    modifies g.handles`firstBlk, g.handles`currBlk, g.handles`currPos, g.handles`size
    ensures g.err != NoDev && o.err == g.err
    ensures var k, c := old(DeskOf(g, open)), TruncCall(fd, size);
      && Gives(k, g.currentDirBlk, c, o) && (lost <==> Loses(k, c))
      && (if lost then RanDry(g, open, old(Dirs(g)), k, c, d)
          else && Session(g, open) && SameSkeleton(old(Dirs(g)), Dirs(g))
               && DeskOf(g, open) == After(k, g.currentDirBlk, c, o))
  {
    hide Session, TreeOf, AllFiles, SeatsOf, SameSkeleton, AfterTrunc, TruncFails, Fits32, OpenOn, RanDry, DeskOf;
    ghost var k, T := DeskOf(g, open), Dirs(g);
    DeskUses(g, open, fd);
    if k.Uses(fd) { EmptyHandle(g, open, fd); }
    var first := FirstOf(g, fd);
    d := Trunc(g, fd, size, open);
    o := Outcome(g.err, -1, 0, []);
    if Loses(k, TruncCall(fd, size)) {
      DryHandle(g, open, T, k, TruncCall(fd, size), d);
    }
    var now := FirstOf(g, fd);
    lost := g.err == DiskFull && first == 0 && now != 0;
    if g.err == DiskFull && first == 0 && k.free == 0 {
      NotLost(k, fd, [], 0, size);
      EmptyHandle(g, open, fd);
    }
  }

  /** Any interleaving of opens, closes, reads, writes and truncations on any files, including
      calls that fail and writes that fill the drive: every outcome, and every file of the volume
      afterwards, open or not, is what the desk says, wherever the cursors of the handles stood in
      between, and no directory changes. The run ends early exactly at a call that takes the first
      blocks of a file and then runs out. */
  method RunCalls(g: Fs, calls: seq<Call>, beyond: nat, ghost open: map<nat, Entry>)
      returns (outs: seq<Outcome>, done: nat, ghost open': map<nat, Entry>, ghost d: seq<nat>)
    requires Session(g, open) && g.err != NoDev && beyond > 0
    requires forall i :: 0 <= i < |calls| ==> AlwaysInReach(calls[i], g.blkCount)
    modifies g`disk, g`marked, g`sh, g`err, g`loadedBitmapBlk, g`buf, g`loadedDirBlk, g.bitmap, g.handles
    ensures done == |outs| <= |calls| && g.currentDirBlk == old(g.currentDirBlk)
    ensures forall i :: 0 <= i < done ==>
      Gives(Played(old(DeskOf(g, open)), g.currentDirBlk, calls, outs[..i]), g.currentDirBlk, calls[i], outs[i])
    ensures SameSkeleton(old(Dirs(g)), Dirs(g))
    ensures done == |calls| ==>
      Session(g, open') && DeskOf(g, open') == Played(old(DeskOf(g, open)), g.currentDirBlk, calls, outs)
    ensures done < |calls| ==> var k := Played(old(DeskOf(g, open)), g.currentDirBlk, calls, outs);
      Loses(k, calls[done]) && RanDry(g, open', Dirs(g), k, calls[done], d)
    ensures forall i :: 0 <= i < done ==>
      !Loses(Played(old(DeskOf(g, open)), g.currentDirBlk, calls, outs[..i]), calls[i])
  {
    hide Session, RanDry, DeskOf, Played, After, Gives, Loses, SameSkeleton, AlwaysInReach;
    outs, done, open', d := [], 0, open, [];
    ghost var k, dir := DeskOf(g, open), g.currentDirBlk;
    PlayedNone(k, dir, calls);
    SkeletonSame(Dirs(g));
    while done < |calls|
      invariant done == |outs| <= |calls| && Session(g, open') && g.err != NoDev && g.currentDirBlk == dir
      invariant SameSkeleton(old(Dirs(g)), Dirs(g)) && DeskOf(g, open') == Played(k, dir, calls, outs)
      invariant forall i :: 0 <= i < done ==>
        && Gives(Played(k, dir, calls, outs[..i]), dir, calls[i], outs[i])
        && !Loses(Played(k, dir, calls, outs[..i]), calls[i])
    {
      ghost var T, now := Dirs(g), open';
      var o, lost;
      o, lost, open', d := OneCall(g, calls[done], beyond, open');
      if lost {
        SameTree(g, open', T, Played(k, dir, calls, outs), calls[done], d);
        return;
      }
      PlayedMore(k, dir, calls, outs, o);
      SkeletonTwice(old(Dirs(g)), T, Dirs(g));
      assert forall i :: 0 <= i < done ==> (outs + [o])[..i] == outs[..i];
      assert (outs + [o])[..done] == outs;
      outs := outs + [o];
      done := done + 1;
    }
  }

  lemma DryHandle(g: Fs, open: map<nat, Entry>, T: Listings, k: Desk, c: Call, d: seq<nat>)
    requires RanDry(g, open, T, k, c, d)
    ensures 0 <= FdOf(c) < |g.handles| && g.handles[FdOf(c)].firstBlk != 0
  {
  }

  lemma SameTree(g: Fs, open: map<nat, Entry>, T: Listings, k: Desk, c: Call, d: seq<nat>)
    requires RanDry(g, open, T, k, c, d)
    ensures Dirs(g) == T
  {
    hide Adrift;
  }

  lemma PlayedNone(k: Desk, dir: nat, calls: seq<Call>)
    ensures Played(k, dir, calls, []) == k
  {
  }

  lemma PlayedMore(k: Desk, dir: nat, calls: seq<Call>, outs: seq<Outcome>, o: Outcome)
    requires |outs| < |calls|
    ensures Played(k, dir, calls, outs + [o]) == After(Played(k, dir, calls, outs), dir, calls[|outs|], o)
  {
    assert (outs + [o])[..|outs|] == outs;
  }

  /** Mounting starts a session without open files; the files are those that the drive holds. */
  method MountSession(n: nat, contents: seq<Block>, ghost marks: set<nat>, ghost shape: Shape) returns (g: Fs)
    requires 0 < n < LIMIT && |contents| == n && BitmapsOn(contents, marks) && Wf(contents, marks, shape, {}, Nothing)
    ensures fresh(g) && fresh(g.bitmap) && fresh(g.handles) && Session(g, map[]) && g.err == None
    ensures g.currentDirBlk == ROOT
    ensures g.blkCount == n && g.disk == contents && g.sh == shape && g.marked == marks
    ensures Dirs(g) == TreeOf(contents, shape)
    ensures DeskOf(g, map[]) == Desk(AllFiles(contents, shape), map[], |FreeOf(Snapshot(contents, marks))|)
  {
    hide Wf, TreeOf, AllFiles, BitmapsOn;
    g := Mount(n, contents, marks, shape);
    AllRowsClosed(Rows(g.handles));
    assert TableReady(g);
    SessionStarts(g);
  }

  lemma AllRowsClosed(rows: seq<Row>)
    requires forall i :: 0 <= i < |rows| ==> rows[i].count == 0
    ensures TableOk(rows)
  {
  }

  /** Mount, run any calls, and mount again: the new session finds every file as the calls left it,
      open or not, with the sizes in the directory. */
  method RunAndRemount(n: nat, contents: seq<Block>, ghost marks: set<nat>, ghost shape: Shape, calls: seq<Call>,
                       beyond: nat)
      returns (outs: seq<Outcome>, done: nat, g: Fs)
    requires 0 < n < LIMIT && |contents| == n && BitmapsOn(contents, marks) && Wf(contents, marks, shape, {}, Nothing)
    requires beyond > 0 && forall i :: 0 <= i < |calls| ==> AlwaysInReach(calls[i], n)
    ensures |outs| == done <= |calls|
    ensures var k := Desk(AllFiles(contents, shape), map[], |FreeOf(Snapshot(contents, marks))|);
      && (forall i :: 0 <= i < done ==>
            && Gives(Played(k, ROOT, calls, outs[..i]), ROOT, calls[i], outs[i])
            && !Loses(Played(k, ROOT, calls, outs[..i]), calls[i]))
      && (done < |calls| ==> Loses(Played(k, ROOT, calls, outs), calls[done]))
    ensures done == |calls| ==> Session(g, map[])
    ensures done == |calls| ==>
      var k := Desk(AllFiles(contents, shape), map[], |FreeOf(Snapshot(contents, marks))|);
      && DeskOf(g, map[]).files == Played(k, ROOT, calls, outs).files
      && DeskOf(g, map[]).free == Played(k, ROOT, calls, outs).free
      && SameSkeleton(TreeOf(contents, shape), Dirs(g))
  {
    hide Wf, TreeOf, AllFiles, BitmapsOn, Played, AlwaysInReach, Gives, Loses, SameSkeleton, Placed, TableReady, RanDry;
    g := MountSession(n, contents, marks, shape);
    ghost var open, d;
    outs, done, open, d := RunCalls(g, calls, beyond, map[]);
    if done == |calls| {
      VolumeOf(g, open);
      g := MountSession(n, g.disk, g.marked, g.sh);
    }
  }

  /** What mounting needs to know about the drive of a session. */
  lemma VolumeOf(g: Fs, open: map<nat, Entry>)
    requires Session(g, open)
    ensures |g.disk| == g.blkCount && BitmapsOn(g.disk, g.marked) && Wf(g.disk, g.marked, g.sh, {}, Nothing)
    ensures FreeBlocks(g) == FreeOf(Snapshot(g.disk, g.marked))
  {
    hide Wf, BitmapsOn, Placed;
  }
}
