/** A volume on which tfs_delete loses an open file. */
module Stranding {
  import opened Layout
  import opened Bits
  import opened Shapes
  import opened Volume
  import opened Directory
  import opened Tree
  import opened Mounted
  import opened Detaching
  import opened Delete
  import opened Desks
  import opened HandleTable
  import opened Sessions
  import opened Deleting

  /** A root directory of two blocks with one empty file in each. */
  function TwoBlocks(a: CString, b: CString): seq<Block>
  {
    [Raw(seq(BLOCK_SIZE, _ => 0xff)),
     DirBlk(0, 2, 0, FreeItems()[0 := Item(File, 0, 0, Stored(a))]),
     DirBlk(1, 0, 0, FreeItems()[0 := Item(File, 0, 0, Stored(b))])]
  }

  ghost function TwoFiles(a: CString, b: CString): map<Name, Item>
  {
    map[Stored(a) := Item(File, 0, 0, Stored(a)), Stored(b) := Item(File, 0, 0, Stored(b))]
  }

  ghost function TwoSlots(a: CString, b: CString): Shape
  {
    Shape(map[ROOT := [1, 2]], map[1 := ROOT, 2 := ROOT],
          map[ROOT := map[Stored(a) := Slot(0, 0), Stored(b) := Slot(1, 0)]], map[], map[ROOT := 0])
  }

  lemma TwoBlocksChain(a: CString, b: CString)
    ensures var disk := TwoBlocks(a, b);
      DirChain(disk, [1, 2], 0) && Lists(disk, [1, 2]) == [disk[1].items, disk[2].items]
  {
    hide Stored;
    var disk, c := TwoBlocks(a, b), [1, 2];
    assert Usable(1, 3) && Usable(2, 3);
    assert DirAt(disk, c, 0, 0) && DirAt(disk, c, 0, 1);
  }

  lemma TwoBlocksDir(a: CString, b: CString)
    requires a != "" && b != "" && Stored(a) != Stored(b)
    ensures var disk, t := TwoBlocks(a, b), TwoSlots(a, b).slots[ROOT];
      && DirOk(disk, [1, 2], 0, t)
      && Listing(Lists(disk, [1, 2]), t) == TwoFiles(a, b)
  {
    hide Stored, DirChain, Lists;
    TwoBlocksChain(a, b);
    var L: seq<seq<Item>> := Lists(TwoBlocks(a, b), [1, 2]);
    assert L[0][0].typ != Free;
  }

  lemma TwoBlocksIndex(a: CString, b: CString)
    requires a != "" && b != "" && Stored(a) != Stored(b)
    ensures var disk, sh := TwoBlocks(a, b), TwoSlots(a, b);
      && DirOk(disk, [1, 2], 0, sh.slots[ROOT]) && OwnOk(sh)
      && TreeOf(disk, sh) == map[ROOT := TwoFiles(a, b)]
  {
    hide Stored, DirOk, Lists, Listing;
    TwoBlocksDir(a, b);
  }

  lemma AllMarked(a: CString, b: CString)
    ensures BitmapsOn(TwoBlocks(a, b), Homes(3) + Tail(3) + {1, 2})
  {
    hide Stored;
    var disk := TwoBlocks(a, b);
    forall x: nat ensures MarkedOn(disk, x) <==> x in Homes(3) + Tail(3) + {1, 2} {
      if x < Top(3) { AllOnes(x % BITMAP_COUNT % 8); }
    }
  }

  /** The volume is well-formed and can be mounted; a handle that was opened in its second block is
      lost when the only entry of the first is deleted. */
  lemma StrandedExample(a: CString, b: CString)
    requires a != "" && b != "" && Stored(a) != Stored(b)
    ensures var disk, sh, marked, r := TwoBlocks(a, b), TwoSlots(a, b), Homes(3) + Tail(3) + {1, 2},
        Resting(2, 0, 0, 0, 0, 0);
      && BitmapsOn(disk, marked) && Wf(disk, marked, sh, {}, Nothing) && RestsOn(disk, sh, r, Entry(ROOT, Stored(b)))
      && Stranded(sh, ROOT, Stored(a), r.dirBlk) && TreeOf(disk, sh) == map[ROOT := TwoFiles(a, b)]
  {
    hide Stored, DirOk, OwnOk, TreeOf, Homes, Tail, BitmapsOn;
    TwoBlocksIndex(a, b);
    AllMarked(a, b);
    assert Usable(1, 3) && Usable(2, 3);
  }

  /** The first open on an empty desk takes seat 0. */
  lemma FirstSeat(k: Desk, dir: nat, name: CString, o: Outcome)
    requires k.seats == map[] && name != "" && Entry(dir, Stored(name)) in k.files && Gives(k, dir, OpenCall(name), o)
    ensures o.err == None && o.fd == 0
    ensures var e := Entry(dir, Stored(name));
      After(k, dir, OpenCall(name), o) == Desk(k.files, map[0 := Seat(e, k.files[e].size, 1)], k.free)
  {
    hide Stored;
    assert 0 !in k.seats;
  }

  lemma OnlySeat(g: Fs, open: map<nat, Entry>, e: Entry, size: nat)
    requires Session(g, open) && DeskOf(g, open).seats == map[0 := Seat(e, size, 1)]
    ensures open == map[0 := e] && |g.handles| == MAX_FDS && g.handles[0].usageCount > 0
    ensures AtSlot(g.sh, e, g.handles[0].dirBlk, g.handles[0].dirItem)
    ensures forall f :: f != e ==> !Seated(DeskOf(g, open), f)
  {
    hide Wf, AllFiles, RestsOn, Placed, TableOk, AtSlot, BytesAt, TreeOf;
    DeskAt(g, open, 0);
    SeatsAreOpen(g.disk, g.sh, Rests(g.handles), Rows(g.handles), open);
    EntryOf(g.disk, g.sh, Rest(g.handles[0]), e);
  }

  lemma TwoFilesThere(a: CString, b: CString)
    requires a != "" && b != "" && Stored(a) != Stored(b)
    ensures var k, e := AllFiles(TwoBlocks(a, b), TwoSlots(a, b)), Entry(ROOT, Stored(b)); e in k
  {
    hide Stored, TreeOf;
    StrandedExample(a, b);
    FileIn(TwoBlocks(a, b), TwoSlots(a, b), Entry(ROOT, Stored(b)));
  }

  /** Mounts this volume and opens the second file. */
  method OpenSecond(a: CString, b: CString) returns (g: Fs, ghost open: map<nat, Entry>)
    requires a != "" && b != "" && Stored(a) != Stored(b)
    ensures fresh(g) && fresh(g.bitmap) && g.err == None && g.sh == TwoSlots(a, b)
    ensures Dirs(g) == map[ROOT := TwoFiles(a, b)] && g.currentDirBlk == ROOT
    ensures open == map[0 := Entry(ROOT, Stored(b))] && |g.handles| == MAX_FDS && g.handles[0].usageCount > 0
    ensures Stranded(g.sh, ROOT, Stored(a), g.handles[0].dirBlk) && !Seated(DeskOf(g, open), Entry(ROOT, Stored(a)))
    ensures Session(g, open)
  {
    hide Stored, Wf, TreeOf, Homes, Tail, BitmapsOn, AllFiles, RestsOn, Placed, SeatsOf, Stranded, Session, Holding,
      TableReady, Gives, After, Seated, Crowded, TwoSlots, TwoBlocks, AtSlot;
    ghost var e, marked := Entry(ROOT, Stored(b)), Homes(3) + Tail(3) + {1, 2};
    StrandedExample(a, b);
    TwoFilesThere(a, b);
    TwoSizes(a, b);
    g := MountSession(3, TwoBlocks(a, b), marked, TwoSlots(a, b));
    ghost var k := DeskOf(g, map[]);
    var fd;
    EmptyDesk(k, e);
    fd, open := OpenFile(g, b, 1, map[]);
    FirstSeat(k, ROOT, b, Outcome(g.err, fd, 0, []));
    OnlySeat(g, open, e, k.files[e].size);
    SecondBlock(a, b, g.handles[0].dirBlk, g.handles[0].dirItem);
  }

  /** Mount, open the second file, delete the first: the deletion succeeds, and the open file counts
      as closed. */
  method StrandingRun(a: CString, b: CString) returns (g: Fs, ghost open: map<nat, Entry>)
    requires a != "" && b != "" && Stored(a) != Stored(b)
    ensures g.err == None && Inv(g) && TableReady(g) && Dirs(g) == map[ROOT := TwoFiles(a, b) - {Stored(a)}]
    ensures open == map[0 := Entry(ROOT, Stored(b))] && |g.handles| == MAX_FDS && g.handles[0].usageCount > 0
    ensures !Session(g, open) && OpenCount(g, Stored(b)) == 0
  {
    hide Stored, TreeOf, OpenCount, Stranded, Session, Holding, TableReady, Seated, TwoSlots, DeskOf, FileChain,
      UnlinkedBlock, FreeBlocks, Elems, RestsOn, AllFiles;
    g, open := OpenSecond(a, b);
    DeleteOpen(g, a, Free, open);
  }

  lemma TwoSizes(a: CString, b: CString)
    ensures |TwoBlocks(a, b)| == 3
  {
  }

  lemma EmptyDesk(k: Desk, e: Entry)
    requires k.seats == map[]
    ensures !Seated(k, e) && !Crowded(k)
  {
    assert 0 !in k.seats;
  }

  lemma SecondBlock(a: CString, b: CString, blk: nat, item: nat)
    requires a != "" && b != "" && Stored(a) != Stored(b) && AtSlot(TwoSlots(a, b), Entry(ROOT, Stored(b)), blk, item)
    ensures Stranded(TwoSlots(a, b), ROOT, Stored(a), blk)
  {
    hide Stored, TreeOf, Wf, BitmapsOn;
    StrandedExample(a, b);
  }
}
