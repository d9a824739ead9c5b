/** A mounted volume: the engine state together with the volume invariant, and lookups in it. */
module Mounted {
  import opened Layout
  import opened Shapes
  import opened Volume
  import opened Chains
  import opened Directory
  import opened Tree
  import opened Links
  import opened Entries

  /** The engine state is coherent and the volume well-formed, up to the pending blocks and the
      detached entry. The current directory is the head block of a directory. */
  ghost predicate Holding(g: Fs, pend: set<nat>, skip: Detached)
    reads g`disk, g`marked, g`sh, g`currentDirBlk, g`lastBitmapBlk, g`lastBitmapLen, g`loadedBitmapBlk, g.bitmap
  {
    && g.Coherent() && Wf(g.disk, g.marked, g.sh, pend, skip)
    && g.currentDirBlk in g.sh.slots && g.currentDirBlk in g.sh.chains
  }

  ghost predicate Inv(g: Fs)
    reads g`disk, g`marked, g`sh, g`currentDirBlk, g`lastBitmapBlk, g`lastBitmapLen, g`loadedBitmapBlk, g.bitmap
  {
    Holding(g, {}, Nothing)
  }

  /** The directories of the mounted volume. */
  ghost function Dirs(g: Fs): Listings
    reads g`disk, g`sh
  {
    TreeOf(g.disk, g.sh)
  }

  /** The file chains of the mounted volume with their bytes. */
  ghost function Files(g: Fs): map<nat, seq<bv8>>
    requires FilesOk(g.disk, g.sh)
    reads g`disk, g`sh
  {
    FilesOf(g.disk, g.sh)
  }

  /** The listing of the current directory. */
  ghost function Here(g: Fs): map<Name, Item>
    reads g`disk, g`sh, g`currentDirBlk
  {
    if g.currentDirBlk in Dirs(g) then Dirs(g)[g.currentDirBlk] else map[]
  }

  /** Blocks of the drive that can still be handed out. */
  ghost function FreeBlocks(g: Fs): set<nat>
    reads g`marked
  {
    FreeSet(g.blkCount, g.marked)
  }

  lemma MarksImply(n: nat, marked: set<nat>, sh: Shape, pend: set<nat>)
    requires MarksOk(n, marked, sh, pend)
    ensures forall p :: 0 <= p < n && p % BITMAP_COUNT == 0 ==> p in marked
    ensures forall b :: 0 <= b < n && b !in marked ==> Usable(b, n) && b !in sh.own && b !in pend
    ensures sh.own.Keys <= marked && pend <= marked && sh.own.Keys !! pend
  {
    forall p | 0 <= p < n && p % BITMAP_COUNT == 0 ensures p in marked {
      assert p in Homes(n);
    }
  }

  /** The accounting after some of the owned and pending blocks were exchanged for others. */
  lemma MarksChange(n: nat, marked: set<nat>, marked': set<nat>, sh: Shape, sh': Shape, pend: set<nat>, pend': set<nat>)
    requires MarksOk(n, marked, sh, pend) && sh'.own.Keys !! pend'
    requires forall b :: (b in sh'.own || b in pend') && b !in sh.own && b !in pend ==> Usable(b, n)
    requires marked' == marked - (sh.own.Keys + pend) + (sh'.own.Keys + pend')
    ensures MarksOk(n, marked', sh', pend')
  {
    var base := Homes(n) + Tail(n);
    assert base !! sh.own.Keys + pend by {
      forall b | b in sh.own.Keys + pend ensures b !in base {
        assert Usable(b, n);
      }
    }
    assert marked - (sh.own.Keys + pend) == base;
  }

  lemma MarksSame(n: nat, marked: set<nat>, sh: Shape, sh': Shape, pend: set<nat>)
    requires MarksOk(n, marked, sh, pend) && sh'.own == sh.own
    ensures MarksOk(n, marked, sh', pend)
  {
  }

  /** A directory of a well-formed volume. */
  lemma DirOf(disk: seq<Block>, sh: Shape, h: nat)
    requires OwnOk(sh) && DirsOk(disk, sh) && h in sh.slots
    ensures h in sh.chains && h in TreeOf(disk, sh)
    ensures DirOk(disk, sh.chains[h], ParentOf(sh.up, h), sh.slots[h])
    ensures TreeOf(disk, sh)[h] == Listing(Lists(disk, sh.chains[h]), sh.slots[h])
    ensures sh.chains[h] != [] && sh.chains[h][0] == h && Distinct(sh.chains[h]) && Elems(sh.chains[h]) <= sh.own.Keys
    ensures |Lists(disk, sh.chains[h])| == |sh.chains[h]|
    ensures forall i :: 0 <= i < |sh.chains[h]| ==> |Lists(disk, sh.chains[h])[i]| == DIR_ITEMS
  {
    assert ChainOwned(sh, h);
    ListsSized(disk, sh.chains[h], ParentOf(sh.up, h));
  }

  lemma ListsSized(disk: seq<Block>, c: seq<nat>, parent: nat)
    requires DirChain(disk, c, parent)
    ensures forall i :: 0 <= i < |c| ==> |Lists(disk, c)[i]| == DIR_ITEMS
  {
    forall i | 0 <= i < |c| ensures |Lists(disk, c)[i]| == DIR_ITEMS {
      assert DirAt(disk, c, parent, i);
    }
  }

  /** Owned blocks of other chains are untouched by a change confined to c. */
  lemma OthersSame(disk: seq<Block>, disk': seq<Block>, marked: set<nat>, sh: Shape, pend: set<nat>, h: nat,
                   c: seq<nat>)
    requires MarksOk(|disk|, marked, sh, pend) && SameOutside(disk, disk', Elems(c))
    requires Fits(sh, h, c)
    ensures |disk'| == |disk|
    ensures forall b :: b in sh.own && b < |disk| && sh.own[b] != h ==> disk'[b] == disk[b]
  {
  }

  lemma AppendFits(sh: Shape, h: nat, c: seq<nat>)
    requires OwnOk(sh) && h in sh.chains && |c| > 0 && c[..|c| - 1] == sh.chains[h] && c[|c| - 1] !in sh.own
    ensures Fits(sh, h, c) && Elems(c) == Elems(sh.chains[h]) + {c[|c| - 1]}
    ensures Rechained(sh, h, c).own.Keys == sh.own.Keys + {c[|c| - 1]}
  {
    var oldChain, b := sh.chains[h], c[|c| - 1];
    assert ChainOwned(sh, h) && c == oldChain + [b];
    assert forall x :: x in c <==> x in oldChain || x == b;
    RechainedOwn(sh, h, c);
  }

  /** The pending blocks were given back. */
  lemma WfReleased(disk: seq<Block>, disk': seq<Block>, marked: set<nat>, sh: Shape, pend: set<nat>, skip: Detached)
    requires Wf(disk, marked, sh, pend, skip) && SameContents(disk, disk')
    ensures Wf(disk', marked - pend, sh, {}, skip)
    ensures TreeOf(disk', sh) == TreeOf(disk, sh) && FilesOf(disk', sh) == FilesOf(disk, sh)
  {
    hide OwnOk, DirsOk, FilesOk, RefsOk, DepthOk, Lists, Listing, TreeOf, FilesOf, Usable;
    MarksImply(|disk|, marked, sh, pend);
    MarksChange(|disk|, marked, marked - pend, sh, sh, pend, {});
    Frame(disk, disk', marked, marked - pend, sh, pend, {}, skip);
  }

  /** Fresh blocks became pending, and only pending blocks were written. */
  lemma WfPending(disk: seq<Block>, disk': seq<Block>, marked: set<nat>, sh: Shape, pend: set<nat>, more: set<nat>,
                  skip: Detached)
    requires Wf(disk, marked, sh, pend, skip) && SameOutside(disk, disk', pend + more)
    requires more !! marked && forall b :: b in more ==> b < |disk|
    ensures Wf(disk', marked + more, sh, pend + more, skip)
    ensures TreeOf(disk', sh) == TreeOf(disk, sh) && FilesOf(disk', sh) == FilesOf(disk, sh)
  {
    hide OwnOk, DirsOk, FilesOk, RefsOk, DepthOk, Lists, Listing, TreeOf, FilesOf, Usable;
    MarksImply(|disk|, marked, sh, pend);
    MarksChange(|disk|, marked, marked + more, sh, sh, pend, pend + more);
    Frame(disk, disk', marked, marked + more, sh, pend, pend + more, skip);
  }

  /** The pending blocks were rewritten, some were given back and some were taken. */
  lemma WfRepend(disk: seq<Block>, disk': seq<Block>, marked: set<nat>, marked': set<nat>, sh: Shape,
                 pend: set<nat>, pend': set<nat>, skip: Detached)
    requires Wf(disk, marked, sh, pend, skip) && SameOutside(disk, disk', pend + pend')
    requires marked' == marked - pend + pend'
    requires forall b :: b in pend' && b !in pend ==> b < |disk| && b !in marked
    ensures Wf(disk', marked', sh, pend', skip)
    ensures TreeOf(disk', sh) == TreeOf(disk, sh) && FilesOf(disk', sh) == FilesOf(disk, sh)
  {
    hide OwnOk, DirsOk, FilesOk, RefsOk, DepthOk, Lists, Listing, TreeOf, FilesOf, Usable;
    MarksImply(|disk|, marked, sh, pend);
    MarksChange(|disk|, marked, marked', sh, sh, pend, pend');
    Frame(disk, disk', marked, marked', sh, pend, pend', skip);
  }

  /** find_file linked a fresh, all-free block to directory h. */
  lemma WfAppended(disk: seq<Block>, disk': seq<Block>, marked: set<nat>, sh: Shape, h: nat, c: seq<nat>,
                   pend: set<nat>, skip: Detached)
    requires Wf(disk, marked, sh, pend, skip) && h in sh.slots && h in sh.chains
    requires |c| > 0 && c[..|c| - 1] == sh.chains[h] && c[|c| - 1] < |disk| && c[|c| - 1] !in marked
    requires SameOutside(disk, disk', Elems(c)) && DirChain(disk', c, ParentOf(sh.up, h))
    requires Lists(disk', c) == Lists(disk, sh.chains[h]) + [FreeItems()] && !HasFree(Lists(disk, sh.chains[h]))
    ensures var sh' := Rechained(sh, h, c);
      && Wf(disk', marked + {c[|c| - 1]}, sh', pend, skip)
      && TreeOf(disk', sh') == TreeOf(disk, sh) && FilesOf(disk', sh') == FilesOf(disk, sh)
  {
    hide OwnOk, DirsOk, FilesOk, RefsOk, DepthOk, MarksOk, Lists, Listing, TreeOf, FilesOf, Index, Packed,
      DirChain, SameOutside, Fits, HasFree, Elems, Usable;
    var b, sh' := c[|c| - 1], Rechained(sh, h, c);
    DirOf(disk, sh, h);
    MarksImply(|disk|, marked, sh, pend);
    AppendFits(sh, h, c);
    OthersSame(disk, disk', marked, sh, pend, h, c);
    AppendIndex(Lists(disk, sh.chains[h]), sh.slots[h]);
    DirUpdated(disk, disk', sh, h, c, sh.slots[h]);
    assert sh' == Rechained(sh, h, c).(slots := sh.slots[h := sh.slots[h]]) by {
      assert sh.slots[h := sh.slots[h]] == sh.slots;
    }
    MarksChange(|disk|, marked, marked + {b}, sh, sh', pend, pend);
    assert sh'.chains.Keys == sh.chains.Keys;
    assert TreeOf(disk', sh') == TreeOf(disk, sh);
  }

  /** The chain of the current directory. */
  ghost function CurChain(g: Fs): seq<nat>
    reads g`sh, g`currentDirBlk
  {
    if g.currentDirBlk in g.sh.chains then g.sh.chains[g.currentDirBlk] else []
  }

  ghost function CurSlots(g: Fs): map<Name, Slot>
    reads g`sh, g`currentDirBlk
  {
    if g.currentDirBlk in g.sh.slots then g.sh.slots[g.currentDirBlk] else map[]
  }

  ghost function CurParent(g: Fs): nat
    reads g`sh, g`currentDirBlk
  {
    ParentOf(g.sh.up, g.currentDirBlk)
  }

  /** The block buffer holds the block of the current directory that contains slot s. */
  ghost predicate Buffered(g: Fs, s: Slot)
    reads g`disk, g`sh, g`currentDirBlk, g`loadedDirBlk, g`buf
  {
    && s.i < |CurChain(g)| && g.loadedDirBlk == CurChain(g)[s.i] < |g.disk|
    && g.buf == g.disk[g.loadedDirBlk] && g.buf.DirBlk? && s.k < |g.buf.items| == DIR_ITEMS
    && InRange(Lists(g.disk, CurChain(g)), s) && g.buf.items == Lists(g.disk, CurChain(g))[s.i]
  }

  /** Everything about the current directory that find_file relies on. */
  lemma CurDir(g: Fs, pend: set<nat>, skip: Detached)
    requires Holding(g, pend, skip)
    ensures CurChain(g) != [] && CurChain(g)[0] == g.currentDirBlk && Elems(CurChain(g)) <= g.marked
    ensures DirOk(g.disk, CurChain(g), CurParent(g), CurSlots(g))
    ensures Here(g) == Listing(Lists(g.disk, CurChain(g)), CurSlots(g)) && g.currentDirBlk in Dirs(g)
    ensures g.HomesMarked()
    ensures |Lists(g.disk, CurChain(g))| == |CurChain(g)|
    ensures forall i :: 0 <= i < |CurChain(g)| ==> |Lists(g.disk, CurChain(g))[i]| == DIR_ITEMS
  {
    hide DirOk, OwnOk, DirsOk, FilesOk, RefsOk, DepthOk, MarksOk, Lists, Listing, TreeOf;
    DirOf(g.disk, g.sh, g.currentDirBlk);
    MarksImply(|g.disk|, g.marked, g.sh, pend);
  }

  lemma FilesOkNow(g: Fs)
    requires Inv(g)
    ensures FilesOk(g.disk, g.sh) && g.Coherent()
  {
  }

  lemma InDirs(g: Fs)
    requires Inv(g)
    ensures g.currentDirBlk in Dirs(g) && Here(g) == Dirs(g)[g.currentDirBlk]
  {
    CurDir(g, {}, Nothing);
  }

  lemma BufferedAt(g: Fs, pend: set<nat>, skip: Detached, s: Slot)
    requires Holding(g, pend, skip)
    requires s.i < |CurChain(g)| && g.loadedDirBlk == CurChain(g)[s.i] < |g.disk|
    requires g.buf == g.disk[g.loadedDirBlk] && s.k < DIR_ITEMS
    ensures Buffered(g, s)
  {
    CurDir(g, pend, skip);
    assert DirAt(g.disk, CurChain(g), CurParent(g), s.i);
  }

  /** A name is in the listing exactly when it has a slot, and the slot holds its item. */
  lemma ListingAt(L: seq<seq<Item>>, t: map<Name, Slot>)
    requires Index(L, t)
    ensures Listing(L, t).Keys == t.Keys
    ensures forall n :: n in t ==> HoldsName(L, t[n], n) && Listing(L, t)[n] == L[t[n].i][t[n].k]
  {
  }

  /** The items of a listing are live and carry their names. */
  lemma HereLive(g: Fs, pend: set<nat>, skip: Detached)
    requires Holding(g, pend, skip)
    ensures forall n :: n in Here(g) ==> Here(g)[n].typ != Free && Here(g)[n].name == n
    ensures Here(g).Keys == CurSlots(g).Keys
  {
    CurDir(g, pend, skip);
    ListingAt(Lists(g.disk, CurChain(g)), CurSlots(g));
  }

  /** The buffered block is an owned block of the current directory. */
  lemma BufferedUsable(g: Fs, pend: set<nat>, skip: Detached, s: Slot)
    requires Holding(g, pend, skip) && Buffered(g, s)
    ensures Usable(g.loadedDirBlk, g.blkCount) && g.loadedDirBlk in g.sh.own && g.loadedDirBlk in g.marked
    ensures g.sh.own[g.loadedDirBlk] == g.currentDirBlk
  {
    CurDir(g, pend, skip);
    assert DirAt(g.disk, CurChain(g), CurParent(g), s.i);
    assert ChainOwned(g.sh, g.currentDirBlk) && CurChain(g)[s.i] in CurChain(g);
    MarksImply(|g.disk|, g.marked, g.sh, pend);
  }

  /** A block that is not marked is usable and belongs to nothing. */
  lemma FreshFacts(g: Fs, pend: set<nat>, skip: Detached)
    requires Holding(g, pend, skip)
    ensures g.HomesMarked() && g.sh.own.Keys <= g.marked && pend <= g.marked
    ensures forall b :: 0 <= b < g.blkCount && b !in g.marked ==> Usable(b, g.blkCount) && b !in g.sh.own && b !in pend
    ensures forall b :: b in g.sh.own ==> Usable(b, g.blkCount)
    ensures forall b :: b in pend ==> Usable(b, g.blkCount) && b < g.blkCount
  {
    MarksImply(|g.disk|, g.marked, g.sh, pend);
  }

  /** Blocks that a new entry of the current directory costs before it has a slot. */
  ghost function SlotCost(g: Fs): nat
    reads g`disk, g`sh, g`currentDirBlk
  {
    if HasFree(Lists(g.disk, CurChain(g))) then 0 else 1
  }

  lemma FreedBlocks(n: nat, marked: set<nat>, freed: set<nat>)
    requires freed <= marked && forall b :: b in freed ==> b < n
    ensures (set b | 0 <= b < n && b !in (marked - freed)) == (set b | 0 <= b < n && b !in marked) + freed
  {
  }

  lemma FreedTwice(n: nat, marked: set<nat>, marked': set<nat>, s: set<nat>, t: set<nat>)
    requires marked' == marked - s - t && s <= marked && t <= marked && forall b :: b in s || b in t ==> b < n
    ensures (set b | 0 <= b < n && b !in marked') == (set b | 0 <= b < n && b !in marked) + t + s
  {
    FreedBlocks(n, marked, s + t);
    assert marked' == marked - (s + t);
  }

  lemma TakenBlock(n: nat, marked: set<nat>, x: nat)
    requires x < n && x !in marked
    ensures x in FreeSet(n, marked) && FreeSet(n, marked + {x}) == FreeSet(n, marked) - {x}
  {
  }

  lemma FullMeansNoneFree(g: Fs)
    ensures g.Full() <==> FreeBlocks(g) == {}
  {
    if g.Full() {
      assert FreeBlocks(g) == {};
    } else {
      var b :| 0 <= b < g.blkCount && b !in g.marked;
      assert b in FreeBlocks(g);
    }
  }

  /** The end of find_file on a mounted volume: the full current directory gets a new block. The
      volume stays well-formed and means the same. */
  method ExtendDir(g: Fs, ghost pend: set<nat>, ghost skip: Detached) returns (item: Pointer, ghost s: Slot)
    requires Holding(g, pend, skip) && g.err == None && !HasFree(Lists(g.disk, CurChain(g)))
    requires g.loadedDirBlk == CurChain(g)[|CurChain(g)| - 1] < |g.disk| && g.buf == g.disk[g.loadedDirBlk]
    modifies g`disk, g`marked, g`sh, g`err, g`loadedBitmapBlk, g`buf, g`loadedDirBlk, g.bitmap
    ensures Holding(g, pend, skip) && Dirs(g) == old(Dirs(g)) && Files(g) == old(Files(g))
    ensures g.err == if old(FreeBlocks(g)) == {} then DiskFull else None
    ensures g.err == DiskFull ==> item == Null && FreeBlocks(g) == {}
    ensures g.err == None ==> item == To(s.k) && Buffered(g, s) && g.buf.items[s.k].typ == Free
    ensures g.err == None ==> |FreeBlocks(g)| == |old(FreeBlocks(g))| - 1 && FreeBlocks(g) <= old(FreeBlocks(g))
    ensures g.err == None ==> s == Slot(|old(CurChain(g))|, 0) && |CurChain(g)| == |old(CurChain(g))| + 1
    ensures Kept(old(g.sh), g.sh, {}, {})
  {
    hide Wf, OwnOk, DirsOk, FilesOk, RefsOk, DepthOk, MarksOk, Lists, Listing, TreeOf, FilesOf, Index, Packed,
      DirChain, SameOutside, HasFree, Elems, Usable, BitmapsOn, MarkedOn, Distinct, Kept;
    CurDir(g, pend, skip);
    FullMeansNoneFree(g);
    ghost var disk0, marked0, sh0, c0 := g.disk, g.marked, g.sh, CurChain(g);
    ghost var c;
    item, c := AppendDirBlock(g, c0, CurParent(g));
    s := Slot(|c0|, 0);
    KeptSelf(sh0, {}, {});
    if g.err == None {
      WfAppended(disk0, g.disk, marked0, sh0, g.currentDirBlk, c, pend, skip);
      KeptRechained(sh0, g.currentDirBlk, c);
      g.sh := Rechained(sh0, g.currentDirBlk, c);
      assert CurChain(g) == c;
      BufferedAt(g, pend, skip, s);
      assert FreeBlocks(g) == old(FreeBlocks(g)) - {c[|c0|]};
    }
  }

  lemma SlotIsEarliest(L: seq<seq<Item>>, s: Slot)
    requires if s.i < |L| then FirstFree(L, s) else s == Slot(|L|, 0) && !HasFree(L)
    ensures Earliest(L, s)
  {
  }

  lemma FirstFreeHas(L: seq<seq<Item>>, s: Slot)
    requires FirstFree(L, s)
    ensures HasFree(L)
  {
  }

  /** The second half of find_file, after a search without a match: the remembered free item is
      loaded again, or a new block is linked. */
  method FreeSlot(g: Fs, free: Pointer, freeBlk: nat, ghost freeAt: nat, ghost pend: set<nat>, ghost skip: Detached)
      returns (item: Pointer, ghost s: Slot)
    requires Holding(g, pend, skip) && g.err == None
    requires g.loadedDirBlk == CurChain(g)[|CurChain(g)| - 1] < |g.disk| && g.buf == g.disk[g.loadedDirBlk]
    requires match free
      case Null => !HasFree(Lists(g.disk, CurChain(g)))
      case To(k) => freeAt < |CurChain(g)| && freeBlk == CurChain(g)[freeAt] < |g.disk| && k < DIR_ITEMS
                    && FirstFree(Lists(g.disk, CurChain(g)), Slot(freeAt, k))
    modifies g`disk, g`marked, g`sh, g`err, g`loadedBitmapBlk, g`buf, g`loadedDirBlk, g.bitmap
    ensures Holding(g, pend, skip) && Dirs(g) == old(Dirs(g)) && Files(g) == old(Files(g))
    ensures g.err == if old(SlotCost(g)) == 1 && old(FreeBlocks(g)) == {} then DiskFull else None
    ensures g.err == DiskFull ==> item == Null && FreeBlocks(g) == {}
    ensures g.err == None ==> item == To(s.k) && Buffered(g, s) && g.buf.items[s.k].typ == Free
    ensures g.err == None ==>
      if old(SlotCost(g)) == 0 then FirstFree(old(Lists(g.disk, CurChain(g))), s) && CurChain(g) == old(CurChain(g))
      else s == Slot(|old(CurChain(g))|, 0) && |CurChain(g)| == |old(CurChain(g))| + 1
    ensures g.err == None ==>
      |FreeBlocks(g)| == |old(FreeBlocks(g))| - old(SlotCost(g)) && FreeBlocks(g) <= old(FreeBlocks(g))
    ensures Kept(old(g.sh), g.sh, {}, {})
    ensures g.err == None ==> Earliest(old(Lists(g.disk, CurChain(g))), s)
  {
    hide Holding, Lists, TreeOf, FilesOf, FilesOk, HasFree, Stored, Kept, Earliest;
    KeptSelf(g.sh, {}, {});
    ListsLength(g.disk, CurChain(g));
    SlotIsEarliest(Lists(g.disk, CurChain(g)),
                   if free == Null then Slot(|CurChain(g)|, 0) else Slot(freeAt, free.slot));
    if free != Null {
      if g.loadedDirBlk != freeBlk {
        g.buf := g.ReadBlock(freeBlk);
        g.loadedDirBlk := freeBlk;
      }
      item, s := free, Slot(freeAt, free.slot);
      FirstFreeHas(Lists(g.disk, CurChain(g)), s);
      BufferedAt(g, pend, skip, s);
      return;
    }
    item, s := ExtendDir(g, pend, skip);
  }

  lemma HereSlot(g: Fs, pend: set<nat>, skip: Detached, n: Name)
    requires Holding(g, pend, skip)
    ensures n in Here(g) <==> n in CurSlots(g)
    ensures n in CurSlots(g) ==>
      InRange(Lists(g.disk, CurChain(g)), CurSlots(g)[n])
      && Here(g)[n] == Lists(g.disk, CurChain(g))[CurSlots(g)[n].i][CurSlots(g)[n].k]
  {
    hide Wf, TreeOf, Lists, Index;
    CurDir(g, pend, skip);
    ListingAt(Lists(g.disk, CurChain(g)), CurSlots(g));
  }

  /** find_file. On success the block buffer holds the block of the item it points to: the item
      called `name`, or else (if wanted) a free one. */
  method FindFile(g: Fs, name: CString, want: bool, ghost pend: set<nat>, ghost skip: Detached)
      returns (item: Pointer, ghost s: Slot)
    requires Holding(g, pend, skip) && g.err == None
    modifies g`disk, g`marked, g`sh, g`err, g`loadedBitmapBlk, g`buf, g`loadedDirBlk, g.bitmap
    ensures Holding(g, pend, skip) && Dirs(g) == old(Dirs(g)) && Files(g) == old(Files(g))
    ensures name == "" ==> g.err == NoName && item == Null
    ensures name != "" ==> g.err == None || g.err == DiskFull
    ensures g.err == DiskFull ==> item == Null && want && Stored(name) !in old(Here(g)) && FreeBlocks(g) == {}
    ensures name != "" && Stored(name) !in old(Here(g)) && !want ==> item == Null && g.err == None
    ensures name != "" && g.err == None && (want || Stored(name) in old(Here(g))) ==> item.To?
    ensures item.To? ==> name != "" && Buffered(g, s) && item == To(s.k)
    ensures item.To? && Stored(name) in old(Here(g)) ==>
      Stored(name) in CurSlots(g) && s == CurSlots(g)[Stored(name)] && g.buf.items[s.k] == old(Here(g))[Stored(name)]
    ensures item.To? && Stored(name) !in old(Here(g)) ==> want && g.buf.items[s.k].typ == Free
    ensures !want || name == "" || Stored(name) in old(Here(g)) ==>
      g.disk == old(g.disk) && g.sh == old(g.sh) && g.marked == old(g.marked)
    // a new item goes into the first free slot, or into slot 0 of a newly linked block
    ensures item.To? && Stored(name) !in old(Here(g)) ==>
      if old(SlotCost(g)) == 0 then FirstFree(old(Lists(g.disk, CurChain(g))), s) && CurChain(g) == old(CurChain(g))
      else s == Slot(|old(CurChain(g))|, 0) && |CurChain(g)| == |old(CurChain(g))| + 1
    ensures item.To? && Stored(name) !in old(Here(g)) ==> Earliest(old(Lists(g.disk, CurChain(g))), s)
    ensures item.To? && Stored(name) !in old(Here(g)) ==> var L := old(Lists(g.disk, CurChain(g)));
      forall i, k :: 0 <= i < |L| && 0 <= k < |L[i]| && (i < s.i || (i == s.i && k < s.k)) ==> L[i][k].typ != Free
    ensures item.To? && Stored(name) !in old(Here(g)) ==> var L := old(Lists(g.disk, CurChain(g)));
      if s.i < |L| then s.k < |L[s.i]| && L[s.i][s.k].typ == Free else s.i == |L| && s.k == 0
    // what a slot for a new item costs
    ensures g.err == DiskFull ==> old(SlotCost(g)) == 1 && old(FreeBlocks(g)) == {}
    ensures item.To? && Stored(name) !in old(Here(g)) ==>
      |FreeBlocks(g)| == |old(FreeBlocks(g))| - old(SlotCost(g)) && FreeBlocks(g) <= old(FreeBlocks(g))
    ensures Kept(old(g.sh), g.sh, {}, {})
  {
    hide Holding, Lists, Listing, TreeOf, FilesOf, FilesOk, Index, Packed, DirChain, Elems, Stored, Distinct,
      SlotCost, FreeBlocks, Buffered, Wf, Usable, BitmapsOn, Kept, Dirs, Files, Here, Earliest;
    item, s := Null, Slot(0, 0);
    KeptSelf(g.sh, {}, {});
    if name == "" {
      g.err := NoName;
      return;
    }
    ghost var c, t := CurChain(g), CurSlots(g);
    CurDir(g, pend, skip);
    HereSlot(g, pend, skip, Stored(name));
    var free, freeBlk;
    ghost var at, freeAt;
    item, free, freeBlk, at, freeAt := SearchDir(g, name, c, CurParent(g), t);
    if item != Null {
      s := Slot(at, item.slot);
      BufferedAt(g, pend, skip, s);
      return;
    }
    ghost var L := Lists(g.disk, c);
    if want {
      item, s := FreeSlot(g, free, freeBlk, freeAt, pend, skip);
      if g.err == None { EarliestMeans(L, s); }
    }
  }

  /** find_file without interest in a free item: it changes nothing but the block buffer. */
  method LookUp(g: Fs, name: CString, ghost pend: set<nat>, ghost skip: Detached) returns (item: Pointer, ghost s: Slot)
    requires Holding(g, pend, skip) && g.err == None
    modifies g`disk, g`marked, g`sh, g`err, g`loadedBitmapBlk, g`buf, g`loadedDirBlk, g.bitmap
    ensures Holding(g, pend, skip) && g.disk == old(g.disk) && g.sh == old(g.sh) && g.marked == old(g.marked)
    ensures g.err == if name == "" then NoName else None
    ensures item == Null <==> name == "" || Stored(name) !in Here(g)
    ensures item.To? ==>
      && Buffered(g, s) && item == To(s.k) && Stored(name) in CurSlots(g) && s == CurSlots(g)[Stored(name)]
      && g.buf.items[s.k] == Here(g)[Stored(name)] && Here(g)[Stored(name)].typ != Free
  {
    hide Wf, Lists, Listing, TreeOf, FilesOf, BitmapsOn, MarkedOn, HasFree, FirstFree, Buffered, Kept, Earliest;
    HereLive(g, pend, skip);
    item, s := FindFile(g, name, false, pend, skip);
  }

  /** find_file with interest in a free item: where the entry of that name is or can go. */
  method FindSlot(g: Fs, name: CString) returns (item: Pointer, ghost s: Slot)
    requires Inv(g) && g.err == None
    modifies g`disk, g`marked, g`sh, g`err, g`loadedBitmapBlk, g`buf, g`loadedDirBlk, g.bitmap
    ensures Inv(g) && Dirs(g) == old(Dirs(g)) && Files(g) == old(Files(g))
    ensures g.err == if name == "" then NoName
                     else if Stored(name) !in old(Here(g)) && |old(FreeBlocks(g))| < old(SlotCost(g)) then DiskFull
                     else None
    ensures g.err == DiskFull ==> FreeBlocks(g) == {}
    ensures g.err == NoName ==> g.marked == old(g.marked)
    ensures g.err == None ==> Buffered(g, s) && item == To(s.k)
    ensures g.err == None && Stored(name) in old(Here(g)) ==>
      && Stored(name) in CurSlots(g) && s == CurSlots(g)[Stored(name)] && g.buf.items[s.k] == old(Here(g))[Stored(name)]
      && g.sh == old(g.sh) && g.marked == old(g.marked)
    ensures g.err == None && Stored(name) !in old(Here(g)) ==>
      && g.buf.items[s.k].typ == Free
      && |FreeBlocks(g)| == |old(FreeBlocks(g))| - old(SlotCost(g)) && FreeBlocks(g) <= old(FreeBlocks(g))
    ensures Kept(old(g.sh), g.sh, {}, {})
    ensures g.err == None && Stored(name) !in old(Here(g)) ==> Earliest(old(Lists(g.disk, CurChain(g))), s)
  {
    hide Wf, Lists, Listing, TreeOf, FilesOf, FilesOk, BitmapsOn, MarkedOn, HasFree, FirstFree, Kept, Earliest;
    HereLive(g, {}, Nothing);
    item, s := FindFile(g, name, true, {}, Nothing);
  }
}
