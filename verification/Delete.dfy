/** tfs_delete: the emptiness check, the removal of the entry and the release of its blocks. */
module Delete {
  import opened Layout
  import opened Shapes
  import opened Volume
  import opened Allocator
  import opened Chains
  import opened Directory
  import opened Tree
  import opened Entries
  import opened Links
  import opened Mounted
  import opened Detaching

  /** c' is what write_dir_cleanup makes of chain c when block `at` gets the items `items`. */
  ghost predicate CleanedUp(disk: seq<Block>, disk': seq<Block>, marked: set<nat>, marked': set<nat>,
                            c: seq<nat>, c': seq<nat>, parent: nat, at: nat, items: seq<Item>)
    requires at < |c|
  {
    && DirChain(disk', c', parent)
    && Lists(disk', c') == AfterCleanup(Lists(disk, c), at, items)
    && SameOutside(disk, disk', Elems(c))
    && if |c| == 1 || !AllFree(items) then c' == c && marked' == marked
       else c' == Unlinked(c, at) && marked' == marked - {Dropped(c, at)}
  }

  lemma CleanedUpFits(disk: seq<Block>, disk': seq<Block>, marked: set<nat>, marked': set<nat>, sh: Shape, h: nat,
                      c': seq<nat>, parent: nat, at: nat, items: seq<Item>)
    requires OwnOk(sh) && h in sh.chains && at < |sh.chains[h]| && sh.own.Keys <= marked
    requires CleanedUp(disk, disk', marked, marked', sh.chains[h], c', parent, at, items)
    ensures Fits(sh, h, c') && OwnOk(Rechained(sh, h, c'))
    ensures Rechained(sh, h, c').own.Keys <= sh.own.Keys
    ensures marked' == marked - sh.own.Keys + Rechained(sh, h, c').own.Keys
    ensures |disk'| == |disk|
  {
    hide Unlinked, Dropped, DirAt, AllFree, AfterCleanup, Lists, Distinct, OwnOk, Rechained;
    ShrunkFits(sh, h, c', at);
    RechainedOwn(sh, h, c');
  }

  /** A chain that lost at most one block still fits. */
  lemma ShrunkFits(sh: Shape, h: nat, c': seq<nat>, at: nat)
    requires OwnOk(sh) && h in sh.chains && at < |sh.chains[h]|
    requires c' == sh.chains[h] || (|sh.chains[h]| > 1 && c' == Unlinked(sh.chains[h], at))
    ensures Fits(sh, h, c') && Elems(c') <= Elems(sh.chains[h]) <= sh.own.Keys
    ensures c' != sh.chains[h] ==>
      var d := Dropped(sh.chains[h], at); d in Elems(sh.chains[h]) && Elems(c') == Elems(sh.chains[h]) - {d}
  {
    assert ChainOwned(sh, h);
    if c' != sh.chains[h] {
      UnlinkedElems(sh.chains[h], at);
      assert forall b :: b in c' ==> b in Elems(c');
    }
  }

  lemma RechainedFields(sh: Shape, h: nat, c: seq<nat>)
    requires h in sh.chains
    ensures var sh' := Rechained(sh, h, c);
      sh'.chains.Keys == sh.chains.Keys && sh'.slots == sh.slots && sh'.up == sh.up && sh'.depth == sh.depth
  {
  }

  /** The item of entry e was freed and the directory block written back or unlinked. */
  lemma WfEntryDropped(disk: seq<Block>, disk': seq<Block>, marked: set<nat>, marked': set<nat>, sh: Shape,
                       pend: set<nat>, e: Entry, c': seq<nat>)
    requires Wf(disk, marked, sh, pend, Detach(e)) && e.dir in sh.slots && e.dir in sh.chains
    requires var t, L := sh.slots[e.dir], Lists(disk, sh.chains[e.dir]);
      && e.name in t && InRange(L, t[e.name]) && t[e.name].i < |sh.chains[e.dir]|
      && CleanedUp(disk, disk', marked, marked', sh.chains[e.dir], c', ParentOf(sh.up, e.dir), t[e.name].i,
                   L[t[e.name].i][t[e.name].k := L[t[e.name].i][t[e.name].k].(typ := Free)])
    ensures e.dir in TreeOf(disk, sh)
    ensures var t := RemovedSlots(Lists(disk, sh.chains[e.dir]), sh.slots[e.dir], e.name);
      var sh' := Rechained(sh, e.dir, c').(slots := sh.slots[e.dir := t]);
      && Wf(disk', marked', sh', pend, Nothing)
      && TreeOf(disk', sh') == DropEntry(TreeOf(disk, sh), e)
      && FilesOf(disk', sh') == FilesOf(disk, sh)
  {
    hide OwnOk, DirsOk, FilesOk, Lists, Listing, TreeOf, FilesOf, DirChain, DataAt, Distinct, Index, Packed,
      RefsOk, DepthOk, MarksOk, Usable, ParentOf, Rechained, Fits, AfterCleanup, AllFree, Unlinked, Dropped,
      RemovedSlots, SameOutside, Elems;
    var h, t := e.dir, sh.slots[e.dir];
    var L: seq<seq<Item>> := Lists(disk, sh.chains[h]);
    var s := t[e.name];
    var items := L[s.i][s.k := L[s.i][s.k].(typ := Free)];
    DirOf(disk, sh, h);
    MarksImply(|disk|, marked, sh, pend);
    CleanedUpFits(disk, disk', marked, marked', sh, h, c', ParentOf(sh.up, h), s.i, items);
    RemoveIndex(L, t, e.name);
    OthersOutside(disk, disk', marked, sh, pend, h);
    var t' := RemovedSlots(L, t, e.name);
    DirUpdated(disk, disk', sh, h, c', t');
    RechainedFields(sh, h, c');
    RefsDropDetached(TreeOf(disk, sh), sh.chains.Keys, sh.up, e);
    PendingApart(|disk|, marked, sh, pend);
    var sh' := Rechained(sh, h, c').(slots := sh.slots[h := t']);
    assert marked' == marked - (sh.own.Keys + pend) + (sh'.own.Keys + pend);
    MarksChange(|disk|, marked, marked', sh, sh', pend, pend);
    assert sh'.slots.Keys == sh.slots.Keys;
  }

  /** A change confined to the chain of h leaves the blocks of other chains alone. */
  lemma OthersOutside(disk: seq<Block>, disk': seq<Block>, marked: set<nat>, sh: Shape, pend: set<nat>, h: nat)
    requires OwnOk(sh) && MarksOk(|disk|, marked, sh, pend) && h in sh.chains
    requires SameOutside(disk, disk', Elems(sh.chains[h]))
    ensures |disk'| == |disk|
    ensures forall b :: b in sh.own && b < |disk| && sh.own[b] != h ==> disk'[b] == disk[b]
    ensures forall b :: b in pend && b < |disk| ==> disk'[b] == disk[b]
  {
    assert ChainOwned(sh, h);
  }

  // ----- the open count of a directory slot -----

  /** The usage count of the first handle from i on that was opened on item k of block blk. */
  ghost function UsageFrom(hs: seq<Handle>, blk: nat, k: nat, i: nat): nat
    requires i <= |hs|
    reads hs
    decreases |hs| - i
  {
    if i == |hs| then 0
    else if hs[i].dirBlk == blk && hs[i].dirItem == k then hs[i].usageCount
    else UsageFrom(hs, blk, k, i + 1)
  }

  /** item_usage_count: the first match decides. */
  method ItemUsageCount(g: Fs, k: nat) returns (count: nat)
    ensures count == UsageFrom(g.handles, g.loadedDirBlk, k, 0)
    // the count of the first handle at this place, or 0
    ensures forall fd ::
      (0 <= fd < |g.handles| && g.handles[fd].dirBlk == g.loadedDirBlk && g.handles[fd].dirItem == k
       && forall i :: 0 <= i < fd ==> g.handles[i].dirBlk != g.loadedDirBlk || g.handles[i].dirItem != k)
      ==> count == g.handles[fd].usageCount
    ensures count != 0 ==>
      exists i :: 0 <= i < |g.handles| && g.handles[i].dirBlk == g.loadedDirBlk && g.handles[i].dirItem == k
  {
    var fd := 0;
    while fd < |g.handles|
      invariant fd <= |g.handles|
      invariant forall i :: 0 <= i < fd ==> g.handles[i].dirBlk != g.loadedDirBlk || g.handles[i].dirItem != k
      invariant UsageFrom(g.handles, g.loadedDirBlk, k, 0) == UsageFrom(g.handles, g.loadedDirBlk, k, fd)
    {
      if g.handles[fd].dirBlk == g.loadedDirBlk && g.handles[fd].dirItem == k {
        return g.handles[fd].usageCount;
      }
      fd := fd + 1;
    }
    return 0;
  }

  /** How often the entry called n of the current directory is open. */
  ghost function OpenCount(g: Fs, n: Name): nat
    reads g`sh, g`currentDirBlk, g.handles
  {
    if n in CurSlots(g) && CurSlots(g)[n].i < |CurChain(g)|
    then UsageFrom(g.handles, CurChain(g)[CurSlots(g)[n].i], CurSlots(g)[n].k, 0) else 0
  }

  // ----- removing an entry -----

  lemma SlotOfEntry(g: Fs, pend: set<nat>, skip: Detached, n: Name)
    requires Holding(g, pend, skip) && n in CurSlots(g)
    ensures var s := CurSlots(g)[n];
      && InRange(Lists(g.disk, CurChain(g)), s) && s.i < |CurChain(g)|
      && n in Here(g) && Here(g)[n] == Lists(g.disk, CurChain(g))[s.i][s.k]
  {
    CurDir(g, pend, skip);
    ListingAt(Lists(g.disk, CurChain(g)), CurSlots(g));
  }

  /** Entry n is the only one in its block of the current directory, and not in the only block. */
  ghost predicate EmptiesBlock(g: Fs, n: Name)
    reads g`sh, g`currentDirBlk
  {
    |CurChain(g)| > 1 && Alone(CurSlots(g), n)
  }

  ghost predicate Alone(t: map<Name, Slot>, n: Name)
  {
    n in t && forall m :: m in t && m != n ==> t[m].i != t[n].i
  }

  /** The block of the current directory that goes when entry n is deleted, if any. */
  ghost function UnlinkedBlock(g: Fs, n: Name): set<nat>
    reads g`sh, g`currentDirBlk
  {
    if EmptiesBlock(g, n) && CurSlots(g)[n].i < |CurChain(g)| then {Dropped(CurChain(g), CurSlots(g)[n].i)} else {}
  }

  /** Freeing the item of n leaves its block without live items exactly if n is alone there. */
  lemma AloneMeansEmptied(L: seq<seq<Item>>, t: map<Name, Slot>, n: Name)
    requires Index(L, t) && n in t && InRange(L, t[n])
    ensures Alone(t, n) <==> AllFree(L[t[n].i][t[n].k := L[t[n].i][t[n].k].(typ := Free)])
  {
    var s := t[n];
    var items := L[s.i][s.k := L[s.i][s.k].(typ := Free)];
    forall m | m in t && m != n && t[m].i == s.i ensures t[m].k < |items| && items[t[m].k].typ != Free {
      assert HoldsName(L, t[m], m) && HoldsName(L, s, n);
    }
    forall k | 0 <= k < |items| && items[k].typ != Free
      ensures L[s.i][k].name in t && L[s.i][k].name != n && t[L[s.i][k].name] == Slot(s.i, k)
    {
    }
  }

  /** The books after entry n of directory h was deleted along with the chain of x: the emptied
      block is unlinked, and no other directory or file is touched. */
  ghost predicate EntryGone(sh: Shape, sh': Shape, h: nat, n: Name, x: nat)
  {
    && h in sh.chains && h in sh.slots && h in sh'.chains && h in sh'.slots && n in sh.slots[h]
    && (forall y :: y in sh.chains && y != h && y != x ==> y in sh'.chains && sh'.chains[y] == sh.chains[y])
    && (forall y :: y in sh.slots && y != h && y != x ==> y in sh'.slots && sh'.slots[y] == sh.slots[y])
    && var c, t, i := sh.chains[h], sh.slots[h], sh.slots[h][n].i;
       if |c| > 1 && Alone(t, n) && i < |c|
       then sh'.chains[h] == Unlinked(c, i) && sh'.slots[h] == Shifted(t - {n}, i)
       else sh'.chains[h] == c && sh'.slots[h] == t - {n}
  }

  lemma GoneShape(sh: Shape, c': seq<nat>, L: seq<seq<Item>>, h: nat, n: Name)
    requires h in sh.chains && h in sh.slots && Index(L, sh.slots[h]) && n in sh.slots[h] && InRange(L, sh.slots[h][n])
    requires |L| == |sh.chains[h]|
    requires var i := sh.slots[h][n].i;
      c' == if |L| > 1 && AllFree(L[i][sh.slots[h][n].k := L[i][sh.slots[h][n].k].(typ := Free)])
            then Unlinked(sh.chains[h], i) else sh.chains[h]
    ensures EntryGone(sh, Rechained(sh, h, c').(slots := sh.slots[h := RemovedSlots(L, sh.slots[h], n)]), h, n, 0)
    ensures forall y :: y in sh.chains && y != h ==>
      y in Rechained(sh, h, c').chains && Rechained(sh, h, c').chains[y] == sh.chains[y]
  {
    hide Index, AllFree, Alone, Unlinked;
    AloneMeansEmptied(L, sh.slots[h], n);
  }

  lemma GoneWithout(sh: Shape, sh1: Shape, sh': Shape, h: nat, n: Name, x: nat)
    requires h in sh.chains && h in sh.slots && h in sh1.chains && h in sh1.slots
    requires sh1.chains[h] == sh.chains[h] && sh1.slots[h] == sh.slots[h] && EntryGone(sh1, sh', h, n, 0)
    requires forall y :: y in sh.chains && y != x ==> y in sh1.chains && sh1.chains[y] == sh.chains[y] && y != 0
    requires forall y :: y in sh.slots && y != x ==> y in sh1.slots && sh1.slots[y] == sh.slots[y] && y != 0
    ensures EntryGone(sh, sh', h, n, x)
  {
    hide Unlinked, Alone, Shifted;
  }

  /** Frees the buffered item of a detached entry and cleans its directory block up. */
  method RemoveItem(g: Fs, k: nat, ghost s: Slot, ghost pend: set<nat>, ghost e: Entry)
    requires Holding(g, pend, Detach(e)) && Buffered(g, s) && k == s.k
    requires e.dir == g.currentDirBlk && e.name in CurSlots(g) && s == CurSlots(g)[e.name]
    modifies g`disk, g`marked, g`sh, g`loadedBitmapBlk, g`buf, g`loadedDirBlk, g.bitmap
    ensures Holding(g, pend, Nothing) && e.dir in old(Dirs(g))
    ensures Dirs(g) == DropEntry(old(Dirs(g)), e) && Files(g) == old(Files(g))
    ensures forall b :: b in pend && b < g.blkCount ==> g.disk[b] == old(g.disk)[b]
    ensures EntryGone(old(g.sh), g.sh, g.currentDirBlk, e.name, 0)
    ensures g.marked == old(g.marked) - old(UnlinkedBlock(g, e.name))
  {
    hide OwnOk, DirsOk, FilesOk, RefsOk, DepthOk, MarksOk, Lists, Listing, TreeOf, FilesOf, Index,
      Packed, SameOutside, Elems, Usable, BitmapsOn, MarkedOn, Distinct, AfterCleanup, AllFree, Unlinked,
      Dropped, RemovedSlots, DirChain, Rechained, Alone, EntryGone;
    ghost var disk0, marked0, sh0, h, c := g.disk, g.marked, g.sh, g.currentDirBlk, CurChain(g);
    CurDir(g, pend, Detach(e));
    g.buf := g.buf.(items := g.buf.items[k := g.buf.items[k].(typ := Free)]);
    ghost var c' := WriteDirCleanup(g, c, CurParent(g), s.i);
    WfEntryDropped(disk0, g.disk, marked0, g.marked, sh0, pend, e, c');
    OthersOutside(disk0, g.disk, marked0, sh0, pend, h);
    ghost var L := Lists(disk0, c);
    AloneMeansEmptied(L, sh0.slots[h], e.name);
    GoneShape(sh0, c', L, h, e.name);
    RechainedFields(sh0, h, c');
    g.sh := Rechained(sh0, h, c').(slots := sh0.slots[h := RemovedSlots(L, sh0.slots[h], e.name)]);
  }

  /** tfs_delete on a file: removes its entry, then frees its blocks. */
  method DeleteFile(g: Fs, k: nat, pos: nat, ghost s: Slot, ghost n: Name)
    requires Inv(g) && Buffered(g, s) && k == s.k && n in CurSlots(g) && s == CurSlots(g)[n]
    requires n in Here(g) && Here(g)[n].typ == File && pos == Here(g)[n].blk
    modifies g`disk, g`marked, g`sh, g`loadedBitmapBlk, g`buf, g`loadedDirBlk, g.bitmap
    ensures Inv(g) && g.currentDirBlk in old(Dirs(g))
    ensures Dirs(g) == DropEntry(old(Dirs(g)), Entry(g.currentDirBlk, n))
    ensures Files(g) == old(Files(g)) - {pos} && EntryGone(old(g.sh), g.sh, g.currentDirBlk, n, pos)
    ensures FreeBlocks(g) == old(FreeBlocks(g)) + Elems(FileChain(old(g.sh), pos)) + old(UnlinkedBlock(g, n))
  {
    hide Wf, OwnOk, DirsOk, FilesOk, RefsOk, DepthOk, MarksOk, Lists, Listing, TreeOf, FilesOf, Index,
      Packed, SameOutside, Elems, Usable, BitmapsOn, MarkedOn, Distinct, DirChain, WithoutChain, DataAt;
    ghost var e, c, sh0 := Entry(g.currentDirBlk, n), FileChain(g.sh, pos), g.sh;
    CurDir(g, {}, Nothing);
    NoChainZero(g.disk, g.marked, g.sh);
    UnlinkedInUse(g, n);
    DetachFile(g.disk, g.marked, g.sh, e);
    OtherChains(g.sh, pos);
    FileChainInUse(g, pos);
    g.sh := Without(g.sh, pos);
    ghost var disk0, marked0, sh1 := g.disk, g.marked, g.sh;
    ghost var gone := UnlinkedBlock(g, n);
    RemoveItem(g, k, s, Elems(c), e);
    GoneWithout(sh0, sh1, g.sh, g.currentDirBlk, n, pos);
    FreedTwice(g.blkCount, marked0, marked0 - gone - Elems(c), gone, Elems(c));
    PendingChainSame(disk0, g.disk, c);
    ghost var disk1, marked1 := g.disk, g.marked;
    SuffixForward(g.disk, c, 0);
    assert c[0..] == c;
    FreeFileBlocks(g, pos, c);
    WfReleased(disk1, g.disk, marked1, g.sh, Elems(c), Nothing);
  }

  lemma OtherChains(sh: Shape, x: nat)
    ensures forall h :: h in sh.chains && h != x ==>
      h in Without(sh, x).chains && Without(sh, x).chains[h] == sh.chains[h]
  {
  }

  lemma FileChainInUse(g: Fs, x: nat)
    requires Inv(g) && x !in g.sh.slots
    ensures Elems(FileChain(g.sh, x)) <= g.marked && forall b :: b in Elems(FileChain(g.sh, x)) ==> b < g.blkCount
  {
    hide DirsOk, RefsOk, DepthOk, TreeOf, BitmapsOn, DataAt;
    FreshFacts(g, {}, Nothing);
    if x in g.sh.chains {
      ChainAt(g.disk, g.sh, x);
      ChainInRange(g.disk, g.sh.chains[x]);
    }
  }

  lemma UnlinkedInUse(g: Fs, n: Name)
    requires Inv(g)
    ensures UnlinkedBlock(g, n) <= g.marked && forall b :: b in UnlinkedBlock(g, n) ==> b < g.blkCount
  {
    hide OwnOk, DirsOk, FilesOk, RefsOk, DepthOk, MarksOk, TreeOf, BitmapsOn, Index, Packed, Dropped;
    CurDir(g, {}, Nothing);
    FreshFacts(g, {}, Nothing);
    DirDistinct(g.disk, CurChain(g), CurParent(g));
    if EmptiesBlock(g, n) && CurSlots(g)[n].i < |CurChain(g)| {
      UnlinkedElems(CurChain(g), CurSlots(g)[n].i);
      var b := Dropped(CurChain(g), CurSlots(g)[n].i);
      var i :| 0 <= i < |CurChain(g)| && CurChain(g)[i] == b;
      assert DirAt(g.disk, CurChain(g), CurParent(g), i);
    }
  }

  lemma PendingChainSame(disk: seq<Block>, disk': seq<Block>, c: seq<nat>)
    requires DataChain(disk, c) && |disk| == |disk'|
    requires forall b :: b in Elems(c) && b < |disk| ==> disk'[b] == disk[b]
    ensures DataChain(disk', c)
  {
    assert forall i :: 0 <= i < |c| ==> c[i] in Elems(c);
    FrameData(disk, disk', c);
  }

  /** The head block alone tells whether a directory has entries. */
  lemma HeadTells(disk: seq<Block>, sh: Shape, x: nat)
    requires OwnOk(sh) && DirsOk(disk, sh) && x in sh.slots
    ensures x < |disk| && disk[x].DirBlk? && |disk[x].items| == DIR_ITEMS && x in TreeOf(disk, sh)
    ensures TreeOf(disk, sh)[x] == map[] <==> disk[x].next == 0 && AllFree(disk[x].items)
  {
    hide Index, Packed, Listing, Distinct, DirChain, TreeOf, OwnOk, DirsOk, AllFree, DirAt;
    DirOf(disk, sh, x);
    HeadBlock(disk, sh.chains[x], ParentOf(sh.up, x));
    EmptinessCheck(Lists(disk, sh.chains[x]), sh.slots[x]);
  }

  lemma HeadBlock(disk: seq<Block>, c: seq<nat>, parent: nat)
    requires DirChain(disk, c, parent)
    ensures c[0] < |disk| && disk[c[0]].DirBlk? && |disk[c[0]].items| == DIR_ITEMS && disk[c[0]].parent == parent
    ensures Lists(disk, c)[0] == disk[c[0]].items && (disk[c[0]].next == 0 <==> |c| == 1)
  {
    assert DirAt(disk, c, parent, 0);
    Ends(disk, c, parent, 0);
  }

  /** The test of tfs_delete on the head block of a directory. */
  method LooksEmpty(g: Fs, x: nat) returns (empty: bool)
    requires x in g.sh.slots && OwnOk(g.sh) && DirsOk(g.disk, g.sh)
    modifies g`buf
    ensures x in TreeOf(g.disk, g.sh) && (empty <==> TreeOf(g.disk, g.sh)[x] == map[])
  {
    hide TreeOf, OwnOk, DirsOk;
    HeadTells(g.disk, g.sh, x);
    g.buf := g.ReadBlock(x);
    if g.buf.next != 0 {
      return false;
    }
    var i := 0;
    while i < DIR_ITEMS
      invariant i <= DIR_ITEMS
      invariant forall k :: 0 <= k < i ==> g.buf.items[k].typ == Free
    {
      if g.buf.items[i].typ != Free {
        return false;
      }
      i := i + 1;
    }
    return true;
  }

  /** An empty directory is just its head block. */
  lemma EmptyDirIsHead(disk: seq<Block>, sh: Shape, x: nat)
    requires OwnOk(sh) && DirsOk(disk, sh) && x in sh.slots && x in TreeOf(disk, sh) && TreeOf(disk, sh)[x] == map[]
    ensures x in sh.chains && sh.chains[x] == [x] && Elems(sh.chains[x]) == {x}
  {
    DirOf(disk, sh, x);
    EmptinessCheck(Lists(disk, sh.chains[x]), sh.slots[x]);
  }

  /** Takes an empty directory out of the tree, removes its entry and frees its block. */
  method DropDir(g: Fs, k: nat, pos: nat, ghost s: Slot, ghost n: Name)
    requires Inv(g) && Buffered(g, s) && k == s.k && n in CurSlots(g) && s == CurSlots(g)[n]
    requires n in Here(g) && Here(g)[n].typ == Dir && pos == Here(g)[n].blk && pos in Dirs(g) && Dirs(g)[pos] == map[]
    modifies g`disk, g`marked, g`sh, g`loadedBitmapBlk, g`buf, g`loadedDirBlk, g.bitmap
    ensures Inv(g) && Files(g) == old(Files(g)) && g.currentDirBlk in old(Dirs(g))
    ensures Dirs(g) == DropEntry(old(Dirs(g)), Entry(g.currentDirBlk, n)) - {pos}
    ensures EntryGone(old(g.sh), g.sh, g.currentDirBlk, n, pos)
    ensures FreeBlocks(g) == old(FreeBlocks(g)) + Elems(FileChain(old(g.sh), pos)) + old(UnlinkedBlock(g, n))
  {
    hide Wf, OwnOk, DirsOk, FilesOk, Lists, Listing, TreeOf, FilesOf, Usable, BitmapsOn, WithoutChain, EntryGone,
      Alone, Dropped, RefsOk, DepthOk, MarksOk, DirChain, Elems, ParentOf;
    ghost var e, sh0 := Entry(g.currentDirBlk, n), g.sh;
    assert g.currentDirBlk in Dirs(g) by { CurDir(g, {}, Nothing); }
    NoChainZero(g.disk, g.marked, g.sh);
    UnlinkedInUse(g, n);
    DetachDir(g.disk, g.marked, g.sh, e);
    WfParts(g.disk, g.marked, g.sh, {}, Nothing);
    EmptyDirIsHead(g.disk, g.sh, pos);
    WithoutOther(g.sh, pos);
    g.sh := WithoutChain(g.sh, pos);
    ghost var marked0, sh1, gone := g.marked, g.sh, UnlinkedBlock(g, n);
    RemoveItem(g, k, s, {pos}, e);
    GoneWithout(sh0, sh1, g.sh, g.currentDirBlk, n, pos);
    PendingInUse(g, pos);
    FreedTwice(g.blkCount, marked0, g.marked - {pos}, gone, {pos});
    ghost var disk1, marked1 := g.disk, g.marked;
    FreeBlock(g, pos);
    WfReleased(disk1, g.disk, marked1, g.sh, {pos}, Nothing);
  }

  lemma PendingInUse(g: Fs, x: nat)
    requires Holding(g, {x}, Nothing)
    ensures x in g.marked && x < g.blkCount
  {
    FreshFacts(g, {x}, Nothing);
  }

  /** tfs_delete on a directory: refuses unless it is empty, then removes its entry and block. */
  method DeleteDir(g: Fs, k: nat, pos: nat, ghost s: Slot, ghost n: Name)
    requires Inv(g) && g.err == None && Buffered(g, s) && k == s.k && n in CurSlots(g) && s == CurSlots(g)[n]
    requires n in Here(g) && Here(g)[n].typ == Dir && pos == Here(g)[n].blk
    modifies g`disk, g`marked, g`sh, g`err, g`loadedBitmapBlk, g`buf, g`loadedDirBlk, g.bitmap
    ensures Inv(g) && Files(g) == old(Files(g)) && pos in old(Dirs(g)) && g.currentDirBlk in old(Dirs(g))
    ensures g.err == if old(Dirs(g))[pos] == map[] then None else NotEmpty
    ensures g.err == NotEmpty ==> Dirs(g) == old(Dirs(g))
    ensures g.err == None ==> Dirs(g) == DropEntry(old(Dirs(g)), Entry(g.currentDirBlk, n)) - {pos}
    ensures g.err != None ==> g.sh == old(g.sh) && g.disk == old(g.disk) && g.marked == old(g.marked)
    ensures g.err == None ==>
      && EntryGone(old(g.sh), g.sh, g.currentDirBlk, n, pos)
      && FreeBlocks(g) == old(FreeBlocks(g)) + Elems(FileChain(old(g.sh), pos)) + old(UnlinkedBlock(g, n))
  {
    hide Wf, OwnOk, DirsOk, FilesOk, Lists, Listing, TreeOf, FilesOf, BitmapsOn, WithoutChain, EntryGone,
      UnlinkedBlock, FileChain, Elems,
      DropEntry;
    assert g.currentDirBlk in Dirs(g) by { CurDir(g, {}, Nothing); }
    DetachDir(g.disk, g.marked, g.sh, Entry(g.currentDirBlk, n));
    WfParts(g.disk, g.marked, g.sh, {}, Nothing);
    var empty := LooksEmpty(g, pos);
    if !empty {
      g.err := NotEmpty;
      return;
    }
    g.buf := g.ReadBlock(g.loadedDirBlk);
    DropDir(g, k, pos, s, n);
  }

  lemma WithoutOther(sh: Shape, x: nat)
    ensures forall h :: h in sh.slots && h != x ==>
      h in WithoutChain(sh, x).slots && WithoutChain(sh, x).slots[h] == sh.slots[h]
    ensures forall h :: h in sh.chains && h != x ==>
      h in WithoutChain(sh, x).chains && WithoutChain(sh, x).chains[h] == sh.chains[h]
  {
  }

  lemma CountOfBuffered(g: Fs, s: Slot, n: Name)
    requires Buffered(g, s) && n in CurSlots(g) && CurSlots(g)[n] == s
    ensures OpenCount(g, n) == UsageFrom(g.handles, g.loadedDirBlk, s.k, 0)
  {
  }

  lemma BufferedSlot(g: Fs, s: Slot)
    requires Buffered(g, s)
    ensures g.buf.DirBlk? && s.k < |g.buf.items|
  {
  }

  /** tfs_delete. `typ` Free stands for "any type". */
  method DeleteEntry(g: Fs, name: CString, typ: ItemType)
    requires Inv(g)
    modifies g`disk, g`marked, g`sh, g`err, g`loadedBitmapBlk, g`buf, g`loadedDirBlk, g.bitmap
    ensures Inv(g)
    ensures old(g.err) == NoDev ==> g.err == NoDev && g.disk == old(g.disk) && g.sh == old(g.sh)
    ensures old(g.err) != NoDev ==> (g.err == NoName <==> name == "")
    ensures old(g.err) != NoDev && name != "" ==>
      (g.err == NotExist <==> !(Stored(name) in old(Here(g)) && typ in {Free, old(Here(g))[Stored(name)].typ}))
    ensures old(g.err) != NoDev && name != "" && g.err != NotExist ==>
      (g.err == FileBusy <==> old(OpenCount(g, Stored(name))) > 0)
    ensures old(g.err) != NoDev && name != "" && g.err != NotExist && g.err != FileBusy ==>
      var it := old(Here(g))[Stored(name)];
      && g.currentDirBlk in old(Dirs(g)) && (it.typ == Dir ==> it.blk in old(Dirs(g)))
      && g.err == (if it.typ == Dir && old(Dirs(g))[it.blk] != map[] then NotEmpty else None)
    ensures g.err != None ==> g.disk == old(g.disk) && g.sh == old(g.sh) && g.marked == old(g.marked)
    ensures g.err == None ==> Stored(name) in old(Here(g)) && g.currentDirBlk in old(Dirs(g))
    // what becomes free: the blocks of the chain, and the directory block that is emptied, if any
    ensures g.err == None ==> var n, x := Stored(name), old(Here(g))[Stored(name)].blk;
      && EntryGone(old(g.sh), g.sh, g.currentDirBlk, n, x)
      && FreeBlocks(g) == old(FreeBlocks(g)) + Elems(FileChain(old(g.sh), x)) + old(UnlinkedBlock(g, n))
    ensures g.err == None ==>
      var it, e := old(Here(g))[Stored(name)], Entry(g.currentDirBlk, Stored(name));
      && Dirs(g) == (if it.typ == Dir then DropEntry(old(Dirs(g)), e) - {it.blk} else DropEntry(old(Dirs(g)), e))
      && Files(g) == (if it.typ == Dir then old(Files(g)) else old(Files(g)) - {it.blk})
  {
    hide Holding, Buffered, Lists, TreeOf, FilesOf, FilesOk, OpenCount, UsageFrom, Stored, EntryGone, UnlinkedBlock,
      FileChain, Elems,
      DropEntry, FreeBlocks, Here;
    if g.err == NoDev {
      return;
    }
    g.err := None;
    var item;
    ghost var s;
    item, s := LookUp(g, name, {}, Nothing);
    if g.err != None {
      return;
    }
    if item == Null {
      g.err := NotExist;
      return;
    }
    var k := item.slot;
    BufferedSlot(g, s);
    if typ != Free && g.buf.items[k].typ != typ {
      g.err := NotExist;
      return;
    }
    var count := ItemUsageCount(g, k);
    CountOfBuffered(g, s, Stored(name));
    if count > 0 {
      g.err := FileBusy;
      return;
    }
    var pos := g.buf.items[k].blk;
    if g.buf.items[k].typ == File {
      DeleteFile(g, k, pos, s, Stored(name));
    } else {
      DeleteDir(g, k, pos, s, Stored(name));
    }
  }
}
