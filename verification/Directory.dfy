/** Directories as chains of item blocks: find_file and write_dir_cleanup. */
module Directory {
  import opened Layout
  import opened Volume
  import opened Allocator
  import opened Chains
  import opened Shapes

  /** A directory item pointer: NULL or a slot of the block buffer. */
  datatype Pointer = Null | To(slot: nat)

  /** Block i of c is a directory block of the directory below `parent`, linked to its neighbours. */
  ghost predicate DirAt(disk: seq<Block>, c: seq<nat>, parent: nat, i: nat)
    requires i < |c|
  {
    && Usable(c[i], |disk|)
    && disk[c[i]].DirBlk? && disk[c[i]].parent == parent && |disk[c[i]].items| == DIR_ITEMS
    && disk[c[i]].prev == PrevOf(c, i) && disk[c[i]].next == NextOf(c, i)
  }

  ghost predicate DirChain(disk: seq<Block>, c: seq<nat>, parent: nat)
  {
    c != [] && Distinct(c) && forall i :: 0 <= i < |c| ==> DirAt(disk, c, parent, i)
  }

  /** The links of a directory, from block to block and back. */
  lemma DirLinks(disk: seq<Block>, c: seq<nat>, parent: nat)
    requires DirChain(disk, c, parent)
    ensures c != [] && forall i :: 0 <= i < |c| ==>
      0 < c[i] < |disk| && c[i] % 4096 != 0 && disk[c[i]].DirBlk? && disk[c[i]].parent == parent
    ensures forall i, j :: 0 <= i < j < |c| ==> c[i] != c[j]
    ensures disk[c[0]].prev == 0 && disk[c[|c| - 1]].next == 0
    ensures forall i :: 0 < i < |c| ==> disk[c[i - 1]].next == c[i] && disk[c[i]].prev == c[i - 1]
  {
    forall i | 0 <= i < |c|
      ensures Usable(c[i], |disk|) && disk[c[i]].DirBlk? && disk[c[i]].parent == parent
      ensures disk[c[i]].prev == PrevOf(c, i) && disk[c[i]].next == NextOf(c, i)
    {
      assert DirAt(disk, c, parent, i);
    }
  }

  ghost function ItemsOf(disk: seq<Block>, b: nat): seq<Item>
  {
    if b < |disk| && disk[b].DirBlk? then disk[b].items else []
  }

  /** The item arrays of a directory chain, block after block. */
  ghost function Lists(disk: seq<Block>, c: seq<nat>): seq<seq<Item>>
  {
    seq(|c|, i requires 0 <= i < |c| => ItemsOf(disk, c[i]))
  }

  lemma ListsLength(disk: seq<Block>, c: seq<nat>)
    ensures |Lists(disk, c)| == |c|
  {
  }

  ghost predicate InRange(L: seq<seq<Item>>, s: Slot)
  {
    s.i < |L| && s.k < |L[s.i]|
  }

  /** Slot s holds a live item called n. */
  ghost predicate HoldsName(L: seq<seq<Item>>, s: Slot, n: Name)
  {
    InRange(L, s) && L[s.i][s.k].typ != Free && L[s.i][s.k].name == n && Canonical(n) && n[0] != NUL
  }

  /** t tells for each name of a live item its slot. Being a map, it makes names unique. */
  ghost predicate Index(L: seq<seq<Item>>, t: map<Name, Slot>)
  {
    && (forall n :: n in t ==> HoldsName(L, t[n], n))
    && (forall i, k :: 0 <= i < |L| && 0 <= k < |L[i]| && L[i][k].typ != Free ==>
          L[i][k].name in t && t[L[i][k].name] == Slot(i, k))
  }

  ghost predicate AllFree(items: seq<Item>)
  {
    forall k :: 0 <= k < |items| ==> items[k].typ == Free
  }

  ghost predicate AllLive(items: seq<Item>)
  {
    forall k :: 0 <= k < |items| ==> items[k].typ != Free
  }

  /** Only the last block of a directory can be without live items. */
  ghost predicate Packed(L: seq<seq<Item>>)
  {
    forall i :: 0 <= i < |L| - 1 ==> !AllFree(L[i])
  }

  /** Slot s is free and everything before it is in use. */
  ghost predicate FirstFree(L: seq<seq<Item>>, s: Slot)
  {
    && InRange(L, s) && L[s.i][s.k].typ == Free
    && (forall i :: 0 <= i < s.i ==> AllLive(L[i]))
    && (forall k :: 0 <= k < s.k ==> L[s.i][k].typ != Free)
  }

  /** The slot that a new entry gets in a directory with the items L: the first free one, or the
      first of a new block. */
  ghost predicate Earliest(L: seq<seq<Item>>, s: Slot)
  {
    if s.i < |L| then FirstFree(L, s) else s == Slot(|L|, 0) && forall i :: 0 <= i < |L| ==> AllLive(L[i])
  }

  /** No free item comes before such a slot, block by block and item by item. */
  lemma EarliestMeans(L: seq<seq<Item>>, s: Slot)
    requires Earliest(L, s)
    ensures forall i, k :: 0 <= i < |L| && 0 <= k < |L[i]| && (i < s.i || (i == s.i && k < s.k)) ==> L[i][k].typ != Free
    ensures if s.i < |L| then s.k < |L[s.i]| && L[s.i][s.k].typ == Free else s.i == |L| && s.k == 0
  {
    forall i, k | 0 <= i < |L| && 0 <= k < |L[i]| && (i < s.i || (i == s.i && k < s.k)) ensures L[i][k].typ != Free {
      assert i < s.i ==> AllLive(L[i]);
    }
  }

  /** And it is the only one. */
  lemma EarliestIsOne(L: seq<seq<Item>>, s: Slot, u: Slot)
    requires Earliest(L, s) && Earliest(L, u)
    ensures s == u
  {
    assert s.i < u.i && s.i < |L| ==> AllLive(L[s.i]);
    assert u.i < s.i && u.i < |L| ==> AllLive(L[u.i]);
  }

  /** Where the entry n is after it was stored: a new one in the earliest slot of the directory, an old
      one where it was. */
  ghost predicate StoredAt(L: seq<seq<Item>>, t: map<Name, Slot>, t': map<Name, Slot>, n: Name)
  {
    n in t' && if n in t then t'[n] == t[n] else Earliest(L, t'[n])
  }

  lemma StoredAtMeans(L: seq<seq<Item>>, t: map<Name, Slot>, t': map<Name, Slot>, n: Name)
    requires StoredAt(L, t, t', n)
    ensures n in t' && (n in t ==> t'[n] == t[n])
    ensures n !in t ==> var s := t'[n];
      && (forall i, k :: 0 <= i < |L| && 0 <= k < |L[i]| && (i < s.i || (i == s.i && k < s.k)) ==> L[i][k].typ != Free)
      && if s.i < |L| then s.k < |L[s.i]| && L[s.i][s.k].typ == Free else s.i == |L| && s.k == 0
  {
    hide Earliest;
    if n !in t { EarliestMeans(L, t'[n]); }
  }

  /** The two disks agree on c: then c is the same directory on both. */
  lemma FrameDir(disk: seq<Block>, disk': seq<Block>, c: seq<nat>, parent: nat)
    requires DirChain(disk, c, parent) && Agree(disk, disk', c)
    ensures DirChain(disk', c, parent) && Lists(disk', c) == Lists(disk, c)
  {
    forall i | 0 <= i < |c| ensures DirAt(disk', c, parent, i) && ItemsOf(disk', c[i]) == ItemsOf(disk, c[i]) {
      assert DirAt(disk, c, parent, i);
    }
  }

  // ----- find_file -----

  /** The item loop of find_file over one block: the first live item called `name`, and the
      first free item met before it. 20 stands for "none". */
  method ScanItems(items: seq<Item>, name: CString) returns (hit: nat, free: nat)
    requires |items| == DIR_ITEMS
    requires forall k :: 0 <= k < DIR_ITEMS && items[k].typ != Free ==> Canonical(items[k].name)
    ensures hit <= DIR_ITEMS && free <= DIR_ITEMS
    ensures hit < DIR_ITEMS ==> items[hit].typ != Free && items[hit].name == Stored(name)
    ensures forall k :: 0 <= k < hit && items[k].typ != Free ==> items[k].name != Stored(name)
    ensures free < DIR_ITEMS ==> items[free].typ == Free
    ensures forall k :: 0 <= k < hit && k < free ==> items[k].typ != Free
  {
    hit, free := 0, DIR_ITEMS;
    while hit < DIR_ITEMS
      invariant hit <= DIR_ITEMS && free <= DIR_ITEMS
      invariant forall k :: 0 <= k < hit && items[k].typ != Free ==> items[k].name != Stored(name)
      invariant free < DIR_ITEMS ==> free < hit && items[free].typ == Free
      invariant forall k :: 0 <= k < hit && k < free ==> items[k].typ != Free
    {
      if items[hit].typ == Free {
        if free == DIR_ITEMS {
          free := hit;
        }
      } else {
        MatchIsStoredEquality(name, items[hit].name, 0);
        if NameMatches(name, items[hit].name, 0) {
          return;
        }
      }
      hit := hit + 1;
    }
  }

  /** What a search for n can say after the blocks before `upto` were scanned without a match. */
  ghost predicate Searched(L: seq<seq<Item>>, n: Name, upto: nat, free: Pointer, freeAt: nat)
    requires upto <= |L|
  {
    && (forall i, k :: 0 <= i < upto && 0 <= k < |L[i]| && L[i][k].typ != Free ==> L[i][k].name != n)
    && match free
       case Null => forall i :: 0 <= i < upto ==> AllLive(L[i])
       case To(k) => freeAt < upto && FirstFree(L, Slot(freeAt, k))
  }

  lemma SearchedStep(L: seq<seq<Item>>, n: Name, i: nat, free: Pointer, freeAt: nat, fr: nat)
    requires i < |L| && |L[i]| == DIR_ITEMS && Searched(L, n, i, free, freeAt) && fr <= DIR_ITEMS
    requires forall k :: 0 <= k < DIR_ITEMS && L[i][k].typ != Free ==> L[i][k].name != n
    requires fr < DIR_ITEMS ==> L[i][fr].typ == Free
    requires forall k :: 0 <= k < fr ==> L[i][k].typ != Free
    ensures if free == Null && fr < DIR_ITEMS then Searched(L, n, i + 1, To(fr), i)
            else Searched(L, n, i + 1, free, freeAt)
  {
  }

  /** The block loop of find_file. */
  method SearchDir(g: Fs, name: CString, ghost c: seq<nat>, ghost parent: nat, ghost t: map<Name, Slot>)
      returns (item: Pointer, free: Pointer, freeBlk: nat, ghost at: nat, ghost freeAt: nat)
    requires DirChain(g.disk, c, parent) && c[0] == g.currentDirBlk && Index(Lists(g.disk, c), t)
    modifies g`buf, g`loadedDirBlk
    ensures at < |c| && g.loadedDirBlk == c[at] < |g.disk| && g.buf == g.disk[c[at]]
    ensures Stored(name) in t ==> item == To(t[Stored(name)].k) && at == t[Stored(name)].i
    ensures Stored(name) !in t ==> item == Null && at == |c| - 1
    ensures Stored(name) !in t ==> Searched(Lists(g.disk, c), Stored(name), |c|, free, freeAt)
    // on a miss: the first free item of the whole directory, block by block and item by item
    ensures Stored(name) !in t ==> var L := Lists(g.disk, c);
      forall i, k :: 0 <= i < |L| && 0 <= k < |L[i]| && (free.To? ==> i < freeAt || (i == freeAt && k < free.slot)) ==>
        L[i][k].typ != Free
    ensures Stored(name) !in t && free.To? ==> var L := Lists(g.disk, c);
      freeAt < |L| && free.slot < |L[freeAt]| && L[freeAt][free.slot].typ == Free
    ensures free.To? ==> freeAt < |c| && freeBlk == c[freeAt] < |g.disk|
  {
    hide DataChain, Canonical;
    var pos := g.currentDirBlk;
    ghost var L := Lists(g.disk, c);
    item, free, freeBlk, at, freeAt := Null, Null, 0, 0, 0;
    ghost var i := 0;
    while true
      invariant i < |c| && pos == c[i] && item == Null
      invariant Searched(L, Stored(name), i, free, freeAt)
      invariant free.To? ==> freeAt < |c| && freeBlk == c[freeAt] < |g.disk|
      decreases |c| - i
    {
      assert DirAt(g.disk, c, parent, i) && L[i] == g.disk[c[i]].items;
      g.buf := g.ReadBlock(pos);
      g.loadedDirBlk := pos;
      at := i;
      var hit, fr := ScanItems(g.buf.items, name);
      if hit < DIR_ITEMS {
        item := To(hit);
        return;
      }
      SearchedStep(L, Stored(name), i, free, freeAt, fr);
      if free == Null && fr < DIR_ITEMS {
        freeBlk, free, freeAt := pos, To(fr), i;
      }
      pos := g.buf.next;
      Ends(g.disk, c, parent, i);
      i := i + 1;
      if pos == 0 {
        break;
      }
    }
    NotListed(L, t, Stored(name), free, freeAt);
    SearchedMeans(L, Stored(name), free, freeAt);
  }

  lemma SearchedMeans(L: seq<seq<Item>>, n: Name, free: Pointer, freeAt: nat)
    requires Searched(L, n, |L|, free, freeAt)
    ensures
      forall i, k :: 0 <= i < |L| && 0 <= k < |L[i]| && (free.To? ==> i < freeAt || (i == freeAt && k < free.slot)) ==>
        L[i][k].typ != Free
    ensures free.To? ==> freeAt < |L| && free.slot < |L[freeAt]| && L[freeAt][free.slot].typ == Free
  {
    EarliestMeans(L, if free.To? then Slot(freeAt, free.slot) else Slot(|L|, 0));
  }

  lemma NotListed(L: seq<seq<Item>>, t: map<Name, Slot>, n: Name, free: Pointer, freeAt: nat)
    requires Index(L, t) && Searched(L, n, |L|, free, freeAt)
    ensures n !in t
  {
    forall m | m in t ensures m != n {
      assert HoldsName(L, t[m], m);
    }
  }

  ghost predicate HasFree(L: seq<seq<Item>>)
  {
    exists i :: 0 <= i < |L| && !AllLive(L[i])
  }

  /** Linking block b behind the last block of c, as an all-free block. */
  lemma Appended(disk: seq<Block>, disk': seq<Block>, c: seq<nat>, parent: nat, b: nat)
    requires DirChain(disk, c, parent) && b !in c && Usable(b, |disk|) && |disk'| == |disk|
    requires var last := c[|c| - 1]; last < |disk| && disk'[last] == disk[last].WithNext(b)
    requires disk'[b] == DirBlk(c[|c| - 1], 0, parent, FreeItems())
    requires forall i :: 0 <= i < |c| - 1 && c[i] < |disk| ==> disk'[c[i]] == disk[c[i]]
    ensures DirChain(disk', c + [b], parent)
    ensures Lists(disk', c + [b]) == Lists(disk, c) + [FreeItems()]
  {
    hide DirAt, ItemsOf, FreeItems;
    var c' := c + [b];
    forall i | 0 <= i < |c|
      ensures DirAt(disk', c', parent, i) && ItemsOf(disk', c'[i]) == ItemsOf(disk, c[i])
    {
      AppendedAt(disk, disk', c, parent, b, i);
    }
    AppendedLast(disk', c, parent, b);
  }

  lemma AppendedAt(disk: seq<Block>, disk': seq<Block>, c: seq<nat>, parent: nat, b: nat, i: nat)
    requires i < |c| && DirAt(disk, c, parent, i) && |disk'| == |disk|
    requires c[i] < |disk| ==> disk'[c[i]] == if i == |c| - 1 then disk[c[i]].WithNext(b) else disk[c[i]]
    ensures DirAt(disk', c + [b], parent, i) && ItemsOf(disk', c[i]) == ItemsOf(disk, c[i])
  {
    var c' := c + [b];
    assert PrevOf(c', i) == PrevOf(c, i);
    if i < |c| - 1 {
      assert NextOf(c', i) == NextOf(c, i);
    }
  }

  lemma AppendedLast(disk: seq<Block>, c: seq<nat>, parent: nat, b: nat)
    requires c != [] && Usable(b, |disk|) && disk[b] == DirBlk(c[|c| - 1], 0, parent, FreeItems())
    ensures DirAt(disk, c + [b], parent, |c|) && ItemsOf(disk, b) == FreeItems()
  {
  }

  /** The end of find_file: a new block is allocated, linked and cleared. */
  method AppendDirBlock(g: Fs, ghost c: seq<nat>, ghost parent: nat) returns (item: Pointer, ghost c': seq<nat>)
    requires g.Coherent() && g.HomesMarked() && g.err == None && Elems(c) <= g.marked
    requires DirChain(g.disk, c, parent)
    requires g.loadedDirBlk == c[|c| - 1] < |g.disk| && g.buf == g.disk[g.loadedDirBlk]
    modifies g`disk, g`marked, g`err, g`loadedBitmapBlk, g`buf, g`loadedDirBlk, g.bitmap
    ensures g.Coherent() && g.HomesMarked() && DirChain(g.disk, c', parent)
    ensures g.err == if old(g.Full()) then DiskFull else None
    ensures g.err == DiskFull ==> item == Null && c' == c && g.marked == old(g.marked) && g.disk == old(g.disk)
    ensures g.err == None ==> |c'| == |c| + 1 && c == c'[..|c|] && c'[|c|] !in old(g.marked)
    ensures g.err == None ==> g.marked == old(g.marked) + {c'[|c|]}
    ensures g.err == None ==> SameOutside(old(g.disk), g.disk, Elems(c'))
    ensures g.err == None ==> Lists(g.disk, c') == Lists(old(g.disk), c) + [FreeItems()]
    ensures g.err == None ==> item == To(0) && g.loadedDirBlk == c'[|c|] < |g.disk| && g.buf == g.disk[g.loadedDirBlk]
  {
    hide BitmapsOn, MarkedOn, Usable, Lists, SameContents, SameOutside, Distinct, DirChain, Elems, FreeItems;
    ghost var d0, marked0 := g.disk, g.marked;
    LastDirBlock(d0, c, parent);
    FreshUsable(g);
    var b := AllocBlock(g);
    if g.err != None {
      return Null, c;
    }
    AppendedDir(d0, g.disk, c, parent, b, marked0);
    g.buf := g.buf.WithNext(b);
    g.WriteBlock(g.loadedDirBlk, g.buf);
    g.buf := DirBlk(g.loadedDirBlk, 0, g.buf.parent, FreeItems());
    g.loadedDirBlk := b;
    g.WriteBlock(b, g.buf);
    item, c' := To(0), c + [b];
  }

  lemma LastDirBlock(disk: seq<Block>, c: seq<nat>, parent: nat)
    requires DirChain(disk, c, parent)
    ensures var last := c[|c| - 1];
      && Usable(last, |disk|) && last < |disk| && disk[last].DirBlk? && disk[last].parent == parent
      && |disk[last].items| == DIR_ITEMS
  {
    assert DirAt(disk, c, parent, |c| - 1);
  }

  /** What linking and clearing a fresh block b makes of a directory. */
  lemma AppendedDir(disk: seq<Block>, mid: seq<Block>, c: seq<nat>, parent: nat, b: nat, marked: set<nat>)
    requires DirChain(disk, c, parent) && SameContents(disk, mid) && Elems(c) <= marked && b !in marked
    requires Usable(b, |disk|)
    ensures var last := c[|c| - 1];
      && last < |disk| == |mid| && b < |disk|
      && var disk' := mid[last := disk[last].WithNext(b)][b := DirBlk(last, 0, parent, FreeItems())];
         && DirChain(disk', c + [b], parent) && Lists(disk', c + [b]) == Lists(disk, c) + [FreeItems()]
         && SameOutside(disk, disk', Elems(c + [b]))
  {
    hide Usable, DirAt, Lists, FreeItems, DirChain;
    LastDirBlock(disk, c, parent);
    FrameDirContents(disk, mid, c, parent);
    AppendedElems(c, b, marked);
    UsableNonZero(b, |disk|);
    var last := c[|c| - 1];
    DirDistinct(mid, c, parent);
    var disk' := mid[last := disk[last].WithNext(b)][b := DirBlk(last, 0, parent, FreeItems())];
    Appended(mid, disk', c, parent, b);
  }

  lemma AppendedElems(c: seq<nat>, b: nat, marked: set<nat>)
    requires Elems(c) <= marked && b !in marked
    ensures forall i :: 0 <= i < |c| ==> c[i] in Elems(c) && c[i] != b
    ensures b !in c && Elems(c + [b]) == Elems(c) + {b}
  {
  }

  lemma FrameDirContents(disk: seq<Block>, disk': seq<Block>, c: seq<nat>, parent: nat)
    requires DirChain(disk, c, parent) && SameContents(disk, disk')
    ensures DirChain(disk', c, parent) && Lists(disk', c) == Lists(disk, c) && Agree(disk, disk', c)
  {
    forall i | 0 <= i < |c| ensures c[i] < |disk| && disk'[c[i]] == disk[c[i]] {
      assert DirAt(disk, c, parent, i);
    }
    FrameDir(disk, disk', c, parent);
  }

  // ----- write_dir_cleanup -----

  /** The directory after block `at` got the items `items`: an emptied block is dropped, unless
      it is the only one. */
  ghost function AfterCleanup(L: seq<seq<Item>>, at: nat, items: seq<Item>): seq<seq<Item>>
    requires at < |L|
  {
    if |L| == 1 || !AllFree(items) then L[at := items] else L[..at] + L[at + 1..]
  }

  /** The chain that is left when block `at` of c is dropped. Dropping the head moves the second
      block into the head's place. */
  ghost function Unlinked(c: seq<nat>, at: nat): (u: seq<nat>)
    requires at < |c| && |c| > 1
    ensures |u| == |c| - 1
  {
    if at == 0 then [c[0]] + c[2..] else c[..at] + c[at + 1..]
  }

  /** The block that is freed when block `at` of c is dropped: never the head. */
  ghost function Dropped(c: seq<nat>, at: nat): nat
    requires at < |c| && |c| > 1
  {
    if at == 0 then c[1] else c[at]
  }

  /** Unlinking keeps the head block and loses exactly one other block. */
  lemma UnlinkedElems(c: seq<nat>, at: nat)
    requires Distinct(c) && at < |c| && |c| > 1
    ensures Unlinked(c, at)[0] == c[0] && Dropped(c, at) != c[0] && Dropped(c, at) in c
    ensures Distinct(Unlinked(c, at)) && Elems(Unlinked(c, at)) == Elems(c) - {Dropped(c, at)}
  {
    var u, d := Unlinked(c, at), Dropped(c, at);
    var cut := if at == 0 then 1 else at;
    assert d == c[cut] && u == c[..cut] + c[cut + 1..];
    forall b ensures b in Elems(u) <==> b in Elems(c) && b != d {
      if b in Elems(c) {
        var i :| 0 <= i < |c| && c[i] == b;
        if i < cut { assert u[i] == b; }
        if i > cut { assert u[i - 1] == b; }
      }
      if b in Elems(u) {
        var i :| 0 <= i < |u| && u[i] == b;
        assert b == c[if i < cut then i else i + 1];
      }
    }
  }

  /** Dropping the head: the second block moves into its place. */
  lemma HeadDropped(disk: seq<Block>, disk': seq<Block>, c: seq<nat>, parent: nat)
    requires DirChain(disk, c, parent) && |c| > 1 && |disk'| == |disk|
    requires c[0] < |disk| && c[1] < |disk| && disk[c[1]].DirBlk? && disk'[c[0]] == disk[c[1]].WithPrev(0)
    requires |c| > 2 ==> c[2] < |disk| && disk[c[2]].DirBlk? && disk'[c[2]] == disk[c[2]].WithPrev(c[0])
    requires forall i :: 3 <= i < |c| && c[i] < |disk| ==> disk'[c[i]] == disk[c[i]]
    ensures DirChain(disk', Unlinked(c, 0), parent)
    ensures Lists(disk', Unlinked(c, 0)) == Lists(disk, c)[1..]
  {
    var u := Unlinked(c, 0);
    UnlinkedElems(c, 0);
    forall i | 0 <= i < |u|
      ensures DirAt(disk', u, parent, i) && ItemsOf(disk', u[i]) == ItemsOf(disk, c[i + 1])
    {
      assert DirAt(disk, c, parent, 0);
      assert DirAt(disk, c, parent, i + 1);
      if i == 0 {
        assert NextOf(u, 0) == NextOf(c, 1);
      } else {
        assert u[i] == c[i + 1] && NextOf(u, i) == NextOf(c, i + 1);
        if i > 1 {
          assert PrevOf(u, i) == PrevOf(c, i + 1);
        }
      }
    }
  }

  /** Dropping any other block: its neighbours are linked to each other. */
  lemma TailDropped(disk: seq<Block>, disk': seq<Block>, c: seq<nat>, parent: nat, at: nat)
    requires DirChain(disk, c, parent) && 0 < at < |c| && |disk'| == |disk|
    requires c[at - 1] < |disk| && disk[c[at - 1]].DirBlk?
      && disk'[c[at - 1]] == disk[c[at - 1]].WithNext(NextOf(c, at))
    requires at + 1 < |c| ==>
      c[at + 1] < |disk| && disk[c[at + 1]].DirBlk? && disk'[c[at + 1]] == disk[c[at + 1]].WithPrev(c[at - 1])
    requires forall i :: 0 <= i < |c| && (i < at - 1 || i > at + 1) && c[i] < |disk| ==> disk'[c[i]] == disk[c[i]]
    ensures DirChain(disk', Unlinked(c, at), parent)
    ensures Lists(disk', Unlinked(c, at)) == Lists(disk, c)[..at] + Lists(disk, c)[at + 1..]
  {
    hide Unlinked, DirAt, Distinct, Elems, ItemsOf;
    var u := Unlinked(c, at);
    UnlinkedElems(c, at);
    DirDistinct(disk, c, parent);
    forall i | 0 <= i < |u|
      ensures DirAt(disk', u, parent, i)
      ensures ItemsOf(disk', u[i]) == ItemsOf(disk, c[if i < at then i else i + 1])
    {
      TailDroppedAt(disk, disk', c, parent, at, i);
    }
  }

  lemma DirDistinct(disk: seq<Block>, c: seq<nat>, parent: nat)
    requires DirChain(disk, c, parent)
    ensures Distinct(c)
  {
  }

  lemma TailDroppedAt(disk: seq<Block>, disk': seq<Block>, c: seq<nat>, parent: nat, at: nat, i: nat)
    requires DirChain(disk, c, parent) && 0 < at < |c| && |disk'| == |disk| && i < |c| - 1
    requires c[at - 1] < |disk| && disk[c[at - 1]].DirBlk?
      && disk'[c[at - 1]] == disk[c[at - 1]].WithNext(NextOf(c, at))
    requires at + 1 < |c| ==>
      c[at + 1] < |disk| && disk[c[at + 1]].DirBlk? && disk'[c[at + 1]] == disk[c[at + 1]].WithPrev(c[at - 1])
    requires forall i :: 0 <= i < |c| && (i < at - 1 || i > at + 1) && c[i] < |disk| ==> disk'[c[i]] == disk[c[i]]
    ensures DirAt(disk', Unlinked(c, at), parent, i)
    ensures ItemsOf(disk', Unlinked(c, at)[i]) == ItemsOf(disk, c[if i < at then i else i + 1])
  {
    var u := Unlinked(c, at);
    if i < at {
      assert DirAt(disk, c, parent, i) && u[i] == c[i] && PrevOf(u, i) == PrevOf(c, i);
      assert NextOf(u, i) == if i == at - 1 then NextOf(c, at) else NextOf(c, i);
    } else {
      assert DirAt(disk, c, parent, i + 1) && u[i] == c[i + 1] && NextOf(u, i) == NextOf(c, i + 1);
      assert PrevOf(u, i) == if i == at then c[at - 1] else PrevOf(c, i + 1);
    }
  }

  /** Writes the changed block `at` of a directory back from the buffer, or unlinks and frees it
      if it has become empty and is not the only one. */
  method WriteDirCleanup(g: Fs, ghost c: seq<nat>, ghost parent: nat, ghost at: nat) returns (ghost c': seq<nat>)
    requires g.Coherent() && DirChain(g.disk, c, parent) && at < |c|
    requires g.loadedDirBlk == c[at] < |g.disk| && g.disk[c[at]].DirBlk?
    requires g.buf.DirBlk? && |g.buf.items| == DIR_ITEMS && g.buf == g.disk[c[at]].(items := g.buf.items)
    modifies g`disk, g`marked, g`loadedBitmapBlk, g`buf, g`loadedDirBlk, g.bitmap
    ensures g.Coherent() && DirChain(g.disk, c', parent)
    ensures Lists(g.disk, c') == AfterCleanup(Lists(old(g.disk), c), at, old(g.buf.items))
    ensures SameOutside(old(g.disk), g.disk, Elems(c))
    ensures if |c| == 1 || !AllFree(old(g.buf.items)) then c' == c && g.marked == old(g.marked)
            else c' == Unlinked(c, at) && g.marked == old(g.marked) - {Dropped(c, at)}
  {
    assert DirAt(g.disk, c, parent, at);
    ghost var items := g.buf.items;
    assert |c| == 1 <==> (g.buf.prev == 0 && g.buf.next == 0) by { Ends(g.disk, c, parent, at); }
    c' := c;
    // the only block of the directory is always kept
    if g.buf.prev == 0 && g.buf.next == 0 {
      WriteBack(g, c, parent, at);
      return;
    }
    var i := 0;
    while i < DIR_ITEMS
      invariant i <= DIR_ITEMS
      invariant forall k :: 0 <= k < i ==> g.buf.items[k].typ == Free
    {
      if g.buf.items[i].typ != Free {
        assert !AllFree(items);
        WriteBack(g, c, parent, at);
        return;
      }
      i := i + 1;
    }
    UnlinkBlock(g, c, parent, at);
    c' := Unlinked(c, at);
  }

  /** A block without neighbours is the only block of its directory; one without predecessor is
      the head. */
  lemma Ends(disk: seq<Block>, c: seq<nat>, parent: nat, at: nat)
    requires DirChain(disk, c, parent) && at < |c|
    ensures PrevOf(c, at) == 0 <==> at == 0
    ensures NextOf(c, at) == 0 <==> at + 1 == |c|
  {
    if at > 0 { assert DirAt(disk, c, parent, at - 1); }
    if at + 1 < |c| { assert DirAt(disk, c, parent, at + 1); }
  }

  /** The normal write of a changed directory block. */
  method WriteBack(g: Fs, ghost c: seq<nat>, ghost parent: nat, ghost at: nat)
    requires g.Coherent() && DirChain(g.disk, c, parent) && at < |c|
    requires g.loadedDirBlk == c[at] < |g.disk| && g.disk[c[at]].DirBlk?
    requires g.buf.DirBlk? && |g.buf.items| == DIR_ITEMS && g.buf == g.disk[c[at]].(items := g.buf.items)
    modifies g`disk
    ensures g.Coherent() && DirChain(g.disk, c, parent)
    ensures Lists(g.disk, c) == Lists(old(g.disk), c)[at := g.buf.items]
    ensures g.disk == old(g.disk)[c[at] := g.buf]
  {
    assert DirAt(g.disk, c, parent, at);
    g.WriteBlock(g.loadedDirBlk, g.buf);
    ItemsReplaced(old(g.disk), g.disk, c, parent, at, g.buf.items);
  }

  lemma ItemsReplaced(disk: seq<Block>, disk': seq<Block>, c: seq<nat>, parent: nat, at: nat, items: seq<Item>)
    requires DirChain(disk, c, parent) && at < |c| && |items| == DIR_ITEMS
    requires c[at] < |disk| && disk[c[at]].DirBlk? && disk' == disk[c[at] := disk[c[at]].(items := items)]
    ensures DirChain(disk', c, parent) && Lists(disk', c) == Lists(disk, c)[at := items]
  {
    forall i | 0 <= i < |c|
      ensures DirAt(disk', c, parent, i)
      ensures ItemsOf(disk', c[i]) == if i == at then items else ItemsOf(disk, c[i])
    {
      assert DirAt(disk, c, parent, i);
      assert i != at ==> c[i] != c[at];
    }
  }

  /** The block that survives next to a dropped block, where it goes, and what follows it. */
  ghost function Survivor(disk: seq<Block>, c: seq<nat>, at: nat): (nat, Block, nat)
    requires at < |c| && |c| > 1
  {
    var src := if at == 0 then c[1] else c[at - 1];
    var follow := if at == 0 then (if |c| == 2 then 0 else c[2]) else NextOf(c, at);
    var blk := if src < |disk| && disk[src].DirBlk? then disk[src] else DirBlk(0, 0, 0, []);
    if at == 0 then (c[0], blk.WithPrev(0), follow) else (c[at - 1], blk.WithNext(follow), follow)
  }

  /** The disk after the survivor was written and its successor points back to it. */
  ghost function Patched(disk: seq<Block>, prev: nat, blk: Block, next: nat): seq<Block>
    requires prev < |disk| && next < |disk|
  {
    if next != 0 && disk[next].DirBlk? then disk[prev := blk][next := disk[next].WithPrev(prev)] else disk[prev := blk]
  }

  /** The two block writes of an unlinking give a proper chain with the remaining items. */
  lemma PatchedUnlinks(disk: seq<Block>, c: seq<nat>, parent: nat, at: nat)
    requires DirChain(disk, c, parent) && at < |c| && |c| > 1
    ensures var (prev, blk, next) := Survivor(disk, c, at);
      && Usable(prev, |disk|) && prev in c && next < |disk| && Dropped(c, at) < |disk|
      && (next != 0 ==> Usable(next, |disk|) && next in c && next != prev && disk[next].DirBlk?)
      && DirChain(Patched(disk, prev, blk, next), Unlinked(c, at), parent)
      && Lists(Patched(disk, prev, blk, next), Unlinked(c, at)) == Lists(disk, c)[..at] + Lists(disk, c)[at + 1..]
  {
    var (prev, blk, next) := Survivor(disk, c, at);
    assert DirAt(disk, c, parent, 0) && DirAt(disk, c, parent, 1) && DirAt(disk, c, parent, at);
    if at == 0 {
      if |c| > 2 { assert DirAt(disk, c, parent, 2); }
      HeadDropped(disk, Patched(disk, prev, blk, next), c, parent);
    } else {
      assert DirAt(disk, c, parent, at - 1);
      if at + 1 < |c| { assert DirAt(disk, c, parent, at + 1); }
      TailDropped(disk, Patched(disk, prev, blk, next), c, parent, at);
    }
  }

  /** Loads and relinks the survivor of an unlinking into the buffer; `loadedDirBlk` becomes the
      block to free. */
  method LoadSurvivor(g: Fs, ghost c: seq<nat>, ghost parent: nat, ghost at: nat) returns (prev: nat, next: nat)
    requires DirChain(g.disk, c, parent) && at < |c| && |c| > 1
    requires g.loadedDirBlk == c[at] && g.buf.DirBlk? && g.buf.prev == PrevOf(c, at) && g.buf.next == NextOf(c, at)
    modifies g`buf, g`loadedDirBlk
    ensures (prev, g.buf, next) == Survivor(g.disk, c, at)
    ensures g.loadedDirBlk == Dropped(c, at)
  {
    prev, next := g.buf.prev, g.buf.next;
    Ends(g.disk, c, parent, at);
    if prev == 0 {
      assert DirAt(g.disk, c, parent, 1);
      g.buf := g.ReadBlock(next);
      g.buf := g.buf.WithPrev(0);
      prev := g.loadedDirBlk;
      g.loadedDirBlk := next;
      next := g.buf.next;
    } else {
      assert DirAt(g.disk, c, parent, at - 1);
      g.buf := g.ReadBlock(prev);
      g.buf := g.buf.WithNext(next);
    }
  }

  /** The pointer surgery of write_dir_cleanup on an emptied block. */
  method UnlinkBlock(g: Fs, ghost c: seq<nat>, ghost parent: nat, ghost at: nat)
    requires g.Coherent() && DirChain(g.disk, c, parent) && at < |c| && |c| > 1
    requires g.loadedDirBlk == c[at] && g.buf.DirBlk? && g.buf.prev == PrevOf(c, at) && g.buf.next == NextOf(c, at)
    modifies g`disk, g`marked, g`loadedBitmapBlk, g`buf, g`loadedDirBlk, g.bitmap
    ensures g.Coherent() && DirChain(g.disk, Unlinked(c, at), parent)
    ensures Lists(g.disk, Unlinked(c, at)) == Lists(old(g.disk), c)[..at] + Lists(old(g.disk), c)[at + 1..]
    ensures SameOutside(old(g.disk), g.disk, Elems(c))
    ensures g.marked == old(g.marked) - {Dropped(c, at)}
  {
    hide Lists, Unlinked, Survivor, DirChain;
    var prev, next := LoadSurvivor(g, c, parent, at);
    PatchedUnlinks(g.disk, c, parent, at);
    PatchLinks(g, prev, next);
    assert g.disk == Patched(old(g.disk), prev, Survivor(old(g.disk), c, at).1, next);
    ghost var d1 := g.disk;
    FreeBlock(g, g.loadedDirBlk);
    FrameDirContents(d1, g.disk, Unlinked(c, at), parent);
  }

  /** Writes the buffered block to `prev` and points its successor back to it. */
  method PatchLinks(g: Fs, prev: nat, next: nat)
    requires g.Coherent() && Usable(prev, g.blkCount)
    requires next != 0 ==> Usable(next, g.blkCount) && next != prev && g.disk[next].DirBlk?
    modifies g`disk, g`buf
    ensures g.Coherent()
    ensures g.disk == if next == 0 then old(g.disk)[prev := old(g.buf)]
                      else old(g.disk)[prev := old(g.buf)][next := old(g.disk)[next].WithPrev(prev)]
  {
    g.WriteBlock(prev, g.buf);
    if next != 0 {
      g.buf := g.ReadBlock(next);
      g.buf := g.buf.WithPrev(prev);
      g.WriteBlock(next, g.buf);
    }
  }
}
