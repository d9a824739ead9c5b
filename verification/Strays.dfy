/** update_dir_item on a handle that has lost its place: what the write does to the block that is
    there by then. */
module Strays {
  import opened Layout
  import opened Shapes
  import opened Volume
  import opened Chains
  import opened Directory
  import opened Tree
  import opened Entries
  import opened Links
  import opened Mounted
  import opened DirOps
  import opened Walks
  import opened RandomAccess

  /** Where item k of a directory block lies behind the links of the block. */
  function ItemOffset(k: nat): nat { 4 + ITEM_LEN * k }

  /** The two words that update_dir_item writes. */
  function BlkAndSize(blk: nat, size: nat): (r: seq<bv8>)
    ensures |r| == 8
  {
    WordBytes(blk) + WordBytes(size)
  }

  /** A block after update_dir_item took it for a directory block and wrote to its item k. */
  function Overwritten(b: Block, k: nat, blk: nat, size: nat): Block
  {
    match b
    case DirBlk(prev, next, parent, items) =>
      if k < |items| then DirBlk(prev, next, parent, items[k := items[k].(blk := blk, size := size)]) else b
    case DataBlk(prev, next, data) =>
      if ItemOffset(k) + 8 <= |data| then DataBlk(prev, next, Splice(data, ItemOffset(k), BlkAndSize(blk, size))) else b
    case Raw(bytes) =>
      if 8 + ItemOffset(k) + 8 <= |bytes| then Raw(Splice(bytes, 8 + ItemOffset(k), BlkAndSize(blk, size))) else b
  }

  // ----- the two readings of a directory block agree -----

  lemma ItemWords(it: Item, blk: nat, size: nat)
    requires |it.name| == NAME_LEN
    ensures |ItemBytes(it)| == ITEM_LEN
    ensures ItemBytes(it.(blk := blk, size := size)) == Splice(ItemBytes(it), 0, BlkAndSize(blk, size))
  {
  }

  lemma SpliceBehind(a: seq<bv8>, b: seq<bv8>, off: nat, w: seq<bv8>)
    requires off + |w| <= |b|
    ensures Splice(a + b, |a| + off, w) == a + Splice(b, off, w)
  {
  }

  lemma SpliceBefore(a: seq<bv8>, b: seq<bv8>, off: nat, w: seq<bv8>)
    requires off + |w| <= |a|
    ensures Splice(a + b, off, w) == Splice(a, off, w) + b
  {
  }

  /** Changing block pointer and size of item k changes eight bytes at its place. */
  lemma {:induction false} ItemsUpdated(items: seq<Item>, k: nat, blk: nat, size: nat)
    requires SizedItems(items) && k < |items|
    ensures |ItemsBytes(items)| == ITEM_LEN * |items|
    ensures ItemsBytes(items[k := items[k].(blk := blk, size := size)]) ==
      Splice(ItemsBytes(items), ITEM_LEN * k, BlkAndSize(blk, size))
  {
    hide Splice, ItemBytes, BlkAndSize;
    ItemsLength(items);
    var items' := items[k := items[k].(blk := blk, size := size)];
    var first, rest := ItemBytes(items[0]), items[1..];
    ItemsLength(rest);
    ItemWords(items[0], blk, size);
    if k == 0 {
      assert items'[1..] == rest;
      SpliceBefore(first, ItemsBytes(rest), 0, BlkAndSize(blk, size));
    } else {
      ItemsUpdated(rest, k - 1, blk, size);
      assert items'[1..] == rest[k - 1 := rest[k - 1].(blk := blk, size := size)];
      SpliceBehind(first, ItemsBytes(rest), ITEM_LEN * (k - 1), BlkAndSize(blk, size));
    }
  }

  /** Seen as bytes, update_dir_item does the same to a directory block as to a data block. */
  lemma SameBytes(b: Block, k: nat, blk: nat, size: nat)
    requires b.DirBlk? && |b.items| == DIR_ITEMS && SizedItems(b.items) && k < DIR_ITEMS
    ensures Payload(Overwritten(b, k, blk, size)) == Splice(Payload(b), ItemOffset(k), BlkAndSize(blk, size))
    ensures NextWord(Overwritten(b, k, blk, size)) == NextWord(b)
  {
    hide Splice, ItemsBytes, BlkAndSize, WordBytes;
    ItemsUpdated(b.items, k, blk, size);
    SpliceBehind(WordBytes(b.parent), ItemsBytes(b.items), ITEM_LEN * k, BlkAndSize(blk, size));
  }

  // ----- what becomes of the volume -----

  /** A block of no chain is overwritten: nobody notices. */
  lemma StrayOutside(disk: seq<Block>, marked: set<nat>, sh: Shape, pend: set<nat>, skip: Detached, x: nat, b: Block)
    requires Wf(disk, marked, sh, pend, skip) && x < |disk| && x !in sh.own
    ensures var disk' := disk[x := b];
      && Wf(disk', marked, sh, pend, skip) && FilesOk(disk, sh) && FilesOk(disk', sh)
      && TreeOf(disk', sh) == TreeOf(disk, sh) && FilesOf(disk', sh) == FilesOf(disk, sh)
  {
    hide OwnOk, DirsOk, RefsOk, DepthOk, TreeOf, FilesOf, MarksOk;
    assert MarksOk(|disk|, marked, sh, pend);
    Frame(disk, disk[x := b], marked, marked, sh, pend, pend, skip);
  }

  /** Block i of file f is overwritten: eight bytes of that file are other ones. */
  lemma StrayInFile(disk: seq<Block>, marked: set<nat>, sh: Shape, pend: set<nat>, skip: Detached, f: nat, i: nat,
                    k: nat,
                    blk: nat, size: nat)
    requires Wf(disk, marked, sh, pend, skip) && f in sh.chains && f !in sh.slots && i < |sh.chains[f]| && k < DIR_ITEMS
    ensures var x := sh.chains[f][i];
      && x < |disk| && FilesOk(disk, sh) && f in FilesOf(disk, sh)
      && DATA_LEN * i + ItemOffset(k) + 8 <= |FilesOf(disk, sh)[f]|
      && var disk' := disk[x := Overwritten(disk[x], k, blk, size)];
         && Wf(disk', marked, sh, pend, skip) && FilesOk(disk', sh) && TreeOf(disk', sh) == TreeOf(disk, sh)
         && FilesOf(disk', sh) == FilesOf(disk, sh)[f :=
              Splice(FilesOf(disk, sh)[f], DATA_LEN * i + ItemOffset(k), BlkAndSize(blk, size))]
  {
    hide OwnOk, DirsOk, RefsOk, DepthOk, TreeOf, MarksOk, Splice, BlkAndSize, Flat, DataChain, Distinct;
    var c := sh.chains[f];
    var words := BlkAndSize(blk, size);
    PatchBlock(disk, c, i, ItemOffset(k), words);
    var x := c[i];
    var disk' := disk[x := Overwritten(disk[x], k, blk, size)];
    OneBlock(disk, disk', sh, f, i);
    FileRewritten(disk, disk', marked, sh, pend, skip, f);
  }

  lemma OneBlock(disk: seq<Block>, disk': seq<Block>, sh: Shape, f: nat, i: nat)
    requires OwnOk(sh) && f in sh.chains && i < |sh.chains[f]| && sh.chains[f][i] < |disk| == |disk'|
    requires disk' == disk[sh.chains[f][i] := disk'[sh.chains[f][i]]]
    ensures forall h :: h in sh.chains && h != f ==> Agree(disk, disk', sh.chains[h])
  {
    forall h | h in sh.chains && h != f ensures Agree(disk, disk', sh.chains[h]) {
      assert ChainOwned(sh, f) && ChainOwned(sh, h);
      assert sh.chains[f][i] in sh.chains[f];
    }
  }

  /** Only the blocks of file f changed, and f is still a chain. */
  lemma FileRewritten(disk: seq<Block>, disk': seq<Block>, marked: set<nat>, sh: Shape, pend: set<nat>, skip: Detached,
                      f: nat)
    requires Wf(disk, marked, sh, pend, skip) && f in sh.chains && f !in sh.slots && |disk'| == |disk|
    requires DataChain(disk', sh.chains[f]) && forall h :: h in sh.chains && h != f ==> Agree(disk, disk', sh.chains[h])
    ensures Wf(disk', marked, sh, pend, skip) && FilesOk(disk, sh) && FilesOk(disk', sh)
    ensures TreeOf(disk', sh) == TreeOf(disk, sh)
    ensures FilesOf(disk', sh) == FilesOf(disk, sh)[f := Flat(disk', sh.chains[f])]
  {
    hide OwnOk, RefsOk, DepthOk, MarksOk, DirOk, DataChain, Flat, Lists, Listing, Agree;
    forall h | h in sh.slots
      ensures DirOk(disk', sh.chains[h], ParentOf(sh.up, h), sh.slots[h])
      ensures Lists(disk', sh.chains[h]) == Lists(disk, sh.chains[h])
    {
      DirFrame(disk, disk', sh.chains[h], ParentOf(sh.up, h), sh.slots[h]);
    }
    forall h | h in sh.chains && h !in sh.slots && h != f
      ensures DataChain(disk', sh.chains[h]) && Flat(disk', sh.chains[h]) == Flat(disk, sh.chains[h])
    {
      FrameData(disk, disk', sh.chains[h]);
    }
    assert TreeOf(disk', sh) == TreeOf(disk, sh);
  }

  /** Block s.i of directory h is overwritten at item s.k: if the item is free, nobody notices;
      otherwise that entry has another block pointer and another size. */
  lemma StrayInDir(disk: seq<Block>, marked: set<nat>, sh: Shape, pend: set<nat>, skip: Detached, h: nat, s: Slot,
                   blk: nat,
                   size: nat)
    requires Wf(disk, marked, sh, pend, skip) && h in sh.slots && h in sh.chains && s.i < |sh.chains[h]|
    requires s.k < DIR_ITEMS
    ensures var x := sh.chains[h][s.i];
      && x < |disk| && disk[x].DirBlk? && |disk[x].items| == DIR_ITEMS && FilesOk(disk, sh)
      && var disk', it := disk[x := Overwritten(disk[x], s.k, blk, size)], disk[x].items[s.k];
         && FilesOk(disk', sh) && FilesOf(disk', sh) == FilesOf(disk, sh)
         && (it.typ == Free ==> Wf(disk', marked, sh, pend, skip) && TreeOf(disk', sh) == TreeOf(disk, sh))
         && h in TreeOf(disk, sh)
         && (it.typ != Free ==>
               TreeOf(disk', sh) == PutEntry(TreeOf(disk, sh), Entry(h, it.name), it.(blk := blk, size := size)))
  {
    hide OwnOk, DirsOk, FilesOk, RefsOk, DepthOk, MarksOk, TreeOf, FilesOf, Lists, Listing, Index, Packed, DirChain,
      Elems,
      Distinct, ItemWrittenAt;
    var L: seq<seq<Item>>, t := Lists(disk, sh.chains[h]), sh.slots[h];
    DirOf(disk, sh, h);
    DirBlock(disk, sh.chains[h], ParentOf(sh.up, h), s.i);
    var x := sh.chains[h][s.i];
    var it := disk[x].items[s.k];
    var it' := it.(blk := blk, size := size);
    var disk' := disk[x := Overwritten(disk[x], s.k, blk, size)];
    WrittenHere(disk, disk', sh, h, s, it');
    if it.typ == Free {
      FreeUpdate(L, t, s, it');
    } else {
      LiveSlot(L, t, s);
      UpdateIndex(L, t, it.name, it');
    }
    ItemWritten(disk, disk', sh, h, s, it', t);
    assert sh.(slots := sh.slots[h := t]) == sh by { assert sh.slots[h := t] == sh.slots; }
    PutSame(TreeOf(disk, sh), h);
  }

  lemma PutSame(T: Listings, h: nat)
    ensures h in T ==> T[h := T[h]] == T
  {
  }

  lemma DirBlock(disk: seq<Block>, c: seq<nat>, parent: nat, i: nat)
    requires DirChain(disk, c, parent) && i < |c|
    ensures c[i] < |disk| && disk[c[i]].DirBlk? && |disk[c[i]].items| == DIR_ITEMS
    ensures |Lists(disk, c)| == |c| && Lists(disk, c)[i] == disk[c[i]].items
  {
    assert DirAt(disk, c, parent, i);
  }

  lemma WrittenHere(disk: seq<Block>, disk': seq<Block>, sh: Shape, h: nat, s: Slot, it: Item)
    requires OwnOk(sh) && h in sh.chains && s.i < |sh.chains[h]| && sh.chains[h][s.i] < |disk|
    requires var x := sh.chains[h][s.i];
      && disk[x].DirBlk? && s.k < |disk[x].items| && disk' == disk[x := disk[x].(items := disk[x].items[s.k := it])]
    ensures ItemWrittenAt(disk, disk', sh, h, s, it)
  {
  }

  /** A free item is replaced by a free item. */
  lemma FreeUpdate(L: seq<seq<Item>>, t: map<Name, Slot>, s: Slot, it: Item)
    requires Index(L, t) && Packed(L) && InRange(L, s) && L[s.i][s.k].typ == Free && it.typ == Free
    ensures Index(SetItem(L, s, it), t) && Packed(SetItem(L, s, it)) && Listing(SetItem(L, s, it), t) == Listing(L, t)
  {
    var L' := SetItem(L, s, it);
    forall n | n in t ensures HoldsName(L', t[n], n) && L'[t[n].i][t[n].k] == L[t[n].i][t[n].k] {
      assert HoldsName(L, t[n], n);
    }
    forall i | 0 <= i < |L'| - 1 ensures !AllFree(L'[i]) {
      assert !AllFree(L[i]);
      var k :| 0 <= k < |L[i]| && L[i][k].typ != Free;
      assert L'[i][k].typ != Free;
    }
  }

  lemma LiveSlot(L: seq<seq<Item>>, t: map<Name, Slot>, s: Slot)
    requires Index(L, t) && InRange(L, s) && L[s.i][s.k].typ != Free
    ensures L[s.i][s.k].name in t && t[L[s.i][s.k].name] == s
  {
  }

  /** With another block pointer in a live item the volume cannot be well-formed. */
  lemma StrayBreaks(T: Listings, heads: set<nat>, up: map<nat, Entry>, e: Entry, it: Item)
    requires RefsOk(T, heads, up, Nothing) && e.dir in T && e.name in T[e.dir] && it.typ == T[e.dir][e.name].typ
    requires it.blk != T[e.dir][e.name].blk
    ensures !RefsOk(PutEntry(T, e, it), heads, up, Nothing)
  {
    var x, T' := T[e.dir][e.name].blk, PutEntry(T, e, it);
    assert ItemOk(T[e.dir][e.name], e, T.Keys, heads, up);
    if x in heads && x != ROOT {
      assert !RefAt(T', up, Nothing, x);
    } else {
      assert it.blk in heads && it.blk != ROOT ==> RefAt(T, up, Nothing, it.blk);
      assert !ItemOk(it, e, T'.Keys, heads, up);
    }
  }

  /** update_dir_item on a handle whose place is any block of the drive that is not a bitmap block. The
      ghost result is the place of that block in its chain, if it belongs to one. */
  method UpdateStray(g: Fs, h: Handle, ghost pend: set<nat>, ghost skip: Detached) returns (ghost i: nat)
    requires Holding(g, pend, skip) && FilesOk(g.disk, g.sh) && Usable(h.dirBlk, g.blkCount) && h.dirItem < DIR_ITEMS
    modifies g`disk, g`buf
    ensures g.Coherent() && h.dirBlk < |old(g.disk)| && FilesOk(g.disk, g.sh)
    ensures g.disk == old(g.disk)[h.dirBlk := Overwritten(old(g.disk)[h.dirBlk], h.dirItem, h.firstBlk, h.size)]
    // a block of no chain
    ensures h.dirBlk !in g.sh.own ==> Holding(g, pend, skip) && Dirs(g) == old(Dirs(g)) && Files(g) == old(Files(g))
    ensures h.dirBlk in g.sh.own ==> var f := g.sh.own[h.dirBlk];
      f in g.sh.chains && i < |g.sh.chains[f]| && g.sh.chains[f][i] == h.dirBlk
    // a block of a file
    ensures h.dirBlk in g.sh.own && g.sh.own[h.dirBlk] !in g.sh.slots ==> var f := g.sh.own[h.dirBlk];
      && Holding(g, pend, skip) && Dirs(g) == old(Dirs(g)) && f in old(Files(g))
      && DATA_LEN * i + ItemOffset(h.dirItem) + 8 <= |old(Files(g))[f]|
      && Files(g) == old(Files(g))[f :=
           Splice(old(Files(g))[f], DATA_LEN * i + ItemOffset(h.dirItem), BlkAndSize(h.firstBlk, h.size))]
    // a block of a directory
    ensures h.dirBlk in g.sh.own && g.sh.own[h.dirBlk] in g.sh.slots ==>
      var d, b := g.sh.own[h.dirBlk], old(g.disk)[h.dirBlk];
      && b.DirBlk? && h.dirItem < |b.items| && d in old(Dirs(g)) && Files(g) == old(Files(g))
      && if b.items[h.dirItem].typ == Free then Holding(g, pend, skip) && Dirs(g) == old(Dirs(g))
         else Dirs(g) == PutEntry(old(Dirs(g)), Entry(d, b.items[h.dirItem].name),
                                  b.items[h.dirItem].(blk := h.firstBlk, size := h.size))
  {
    hide Wf, FilesOk, TreeOf, FilesOf, BitmapsOn, MarkedOn, Overwritten, Splice, BlkAndSize, PutEntry, OwnOk;
    var x := h.dirBlk;
    ghost var disk0 := g.disk;
    UsableNonZero(x, g.blkCount);
    OwnedPlace(g.disk, g.marked, g.sh, pend, skip, x);
    i := 0;
    g.buf := g.ReadBlock(x);
    g.buf := Overwritten(g.buf, h.dirItem, h.firstBlk, h.size);
    g.WriteBlock(x, g.buf);
    if x !in g.sh.own {
      StrayOutside(disk0, g.marked, g.sh, pend, skip, x, g.buf);
    } else {
      ghost var f := g.sh.own[x];
      i :| i < |g.sh.chains[f]| && g.sh.chains[f][i] == x;
      if f in g.sh.slots {
        StrayInDir(disk0, g.marked, g.sh, pend, skip, f, Slot(i, h.dirItem), h.firstBlk, h.size);
      } else {
        StrayInFile(disk0, g.marked, g.sh, pend, skip, f, i, h.dirItem, h.firstBlk, h.size);
      }
    }
  }

  lemma OwnedPlace(disk: seq<Block>, marked: set<nat>, sh: Shape, pend: set<nat>, skip: Detached, x: nat)
    requires Wf(disk, marked, sh, pend, skip)
    ensures x in sh.own ==> sh.own[x] in sh.chains && x in sh.chains[sh.own[x]]
  {
    hide DirsOk, FilesOk, RefsOk, DepthOk, MarksOk;
  }
}
