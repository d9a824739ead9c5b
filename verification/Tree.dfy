/** The invariant of a mounted volume: exact block ownership, directories as maps, and a tree of
    directories in which every chain hangs from exactly one entry. */
module Tree {
  import opened Layout
  import opened Shapes
  import opened Volume
  import opened Chains
  import opened Directory

  type Listings = map<nat, map<Name, Item>>

  /** An entry whose chain is detached: its blocks are accounted for separately. */
  datatype Detached = Nothing | Detach(e: Entry)

  // ----- the two readings of a volume -----

  /** A directory as a map from names to items. */
  ghost function Listing(L: seq<seq<Item>>, t: map<Name, Slot>): map<Name, Item>
  {
    map n | n in t && InRange(L, t[n]) :: L[t[n].i][t[n].k]
  }

  /** All directories of the volume. */
  ghost function TreeOf(disk: seq<Block>, sh: Shape): Listings
  {
    map h | h in sh.slots && h in sh.chains :: Listing(Lists(disk, sh.chains[h]), sh.slots[h])
  }

  /** The bytes of all file chains of the volume. */
  ghost function FilesOf(disk: seq<Block>, sh: Shape): map<nat, seq<bv8>>
    requires FilesOk(disk, sh)
  {
    map h | h in sh.chains && h !in sh.slots :: Flat(disk, sh.chains[h])
  }

  // ----- the invariant, clause by clause -----

  /** Every owned block lies in exactly one place of exactly one chain. */
  ghost predicate OwnOk(sh: Shape)
  {
    && (forall b :: b in sh.own ==> sh.own[b] in sh.chains && b in sh.chains[sh.own[b]])
    && (forall h :: h in sh.chains ==> ChainOwned(sh, h))
  }

  ghost predicate ChainOwned(sh: Shape, h: nat)
    requires h in sh.chains
  {
    var c := sh.chains[h];
    && c != [] && c[0] == h && Distinct(c)
    && forall b :: b in c ==> b in sh.own && sh.own[b] == h
  }

  /** The head block of the containing directory, 0 for the root. */
  ghost function ParentOf(up: map<nat, Entry>, h: nat): nat
  {
    if h == ROOT then 0 else if h in up then up[h].dir else 0
  }

  ghost predicate DirOk(disk: seq<Block>, c: seq<nat>, parent: nat, t: map<Name, Slot>)
  {
    && DirChain(disk, c, parent)
    && Index(Lists(disk, c), t)
    && Packed(Lists(disk, c))
  }

  ghost predicate DirsOk(disk: seq<Block>, sh: Shape)
  {
    forall h :: h in sh.slots ==> h in sh.chains && DirOk(disk, sh.chains[h], ParentOf(sh.up, h), sh.slots[h])
  }

  ghost predicate FilesOk(disk: seq<Block>, sh: Shape)
  {
    forall h :: h in sh.chains && h !in sh.slots ==> DataChain(disk, sh.chains[h])
  }

  ghost function Homes(n: nat): set<nat> { set p | 0 <= p < n && p % BITMAP_COUNT == 0 }

  /** The bit numbers between the end of the disk and the end of its last bitmap block. */
  ghost function Tail(n: nat): set<nat>
    requires n > 0
  {
    set p | 0 <= p < Top(n) && PastEnd(p, n)
  }

  ghost predicate PastEnd(p: nat, n: nat) { n <= p }

  ghost predicate AllUsable(s: set<nat>, n: nat)
  {
    forall b :: b in s ==> Usable(b, n)
  }

  /** The marked blocks are exactly the bitmap blocks, the owned blocks and the pending ones
      (plus the bits past the end of the disk), and no block counts twice. */
  ghost predicate MarksOk(n: nat, marked: set<nat>, sh: Shape, pend: set<nat>)
  {
    && n > 0
    && marked == Homes(n) + Tail(n) + sh.own.Keys + pend
    && sh.own.Keys !! pend
    && AllUsable(sh.own.Keys, n) && AllUsable(pend, n)
  }

  /** An item points to the chain that hangs from it. */
  ghost predicate ItemOk(it: Item, e: Entry, dirs: set<nat>, heads: set<nat>, up: map<nat, Entry>)
  {
    && it.typ != Free && it.name == e.name
    && (it.typ == Dir ==> it.blk in dirs && it.blk != ROOT && it.blk in heads)
    && (it.typ == File && it.blk != 0 ==> it.blk in heads && it.blk !in dirs)
    && (it.blk != 0 ==> it.blk in up && up[it.blk] == e)
  }

  /** The chain with head x hangs from the entry up[x]. */
  ghost predicate RefAt(T: Listings, up: map<nat, Entry>, skip: Detached, x: nat)
  {
    && x in up && skip != Detach(up[x])
    && up[x].dir in T && up[x].name in T[up[x].dir]
    && T[up[x].dir][up[x].name].blk == x
    && T[up[x].dir][up[x].name].typ == (if x in T then Dir else File)
  }

  ghost predicate HasEntry(T: Listings, e: Entry)
  {
    e.dir in T && e.name in T[e.dir] && T[e.dir][e.name].typ != Free && T[e.dir][e.name].name == e.name
  }

  /** Entries and chains correspond one to one, except for the detached entry. */
  ghost predicate RefsOk(T: Listings, heads: set<nat>, up: map<nat, Entry>, skip: Detached)
  {
    && ROOT in T && T.Keys <= heads && 0 !in heads
    && (forall h, nm :: h in T && nm in T[h] && skip != Detach(Entry(h, nm)) ==>
          ItemOk(T[h][nm], Entry(h, nm), T.Keys, heads, up))
    && (forall x :: x in heads && x != ROOT ==> RefAt(T, up, skip, x))
    && (skip.Detach? ==> HasEntry(T, skip.e))
  }

  /** Every directory is one step deeper than its parent directory. */
  ghost predicate DepthOk(dirs: set<nat>, up: map<nat, Entry>, depth: map<nat, nat>)
  {
    && ROOT in depth && depth[ROOT] == 0
    && forall h :: h in dirs && h != ROOT ==>
         h in up && up[h].dir in dirs && h in depth && up[h].dir in depth && depth[h] == depth[up[h].dir] + 1
  }

  ghost predicate Wf(disk: seq<Block>, marked: set<nat>, sh: Shape, pend: set<nat>, skip: Detached)
  {
    && OwnOk(sh) && DirsOk(disk, sh) && FilesOk(disk, sh)
    && MarksOk(|disk|, marked, sh, pend)
    && RefsOk(TreeOf(disk, sh), sh.chains.Keys, sh.up, skip)
    && DepthOk(sh.slots.Keys, sh.up, sh.depth)
  }

  lemma WfParts(disk: seq<Block>, marked: set<nat>, sh: Shape, pend: set<nat>, skip: Detached)
    requires Wf(disk, marked, sh, pend, skip)
    ensures OwnOk(sh) && DirsOk(disk, sh) && FilesOk(disk, sh)
  {
  }

  lemma WfFilesOk(disk: seq<Block>, marked: set<nat>, sh: Shape, pend: set<nat>, skip: Detached)
    requires Wf(disk, marked, sh, pend, skip)
    ensures FilesOk(disk, sh)
  {
  }

  // ----- changes of the disk -----

  /** The disk changed only on blocks that belong to no chain. */
  ghost predicate OwnedSame(disk: seq<Block>, disk': seq<Block>, sh: Shape)
  {
    |disk| == |disk'| && forall b :: b in sh.own && b < |disk| ==> disk'[b] == disk[b]
  }

  lemma OwnedAgree(disk: seq<Block>, disk': seq<Block>, sh: Shape, h: nat)
    requires OwnOk(sh) && h in sh.chains && |disk| == |disk'|
    requires forall b :: b in sh.own && b < |disk| && sh.own[b] == h ==> disk'[b] == disk[b]
    ensures Agree(disk, disk', sh.chains[h])
  {
    var c := sh.chains[h];
    assert ChainOwned(sh, h);
    forall i | 0 <= i < |c| && c[i] < |disk| ensures disk'[c[i]] == disk[c[i]] {
      assert c[i] in c;
    }
  }

  /** A directory whose blocks did not change. */
  lemma DirFrame(disk: seq<Block>, disk': seq<Block>, c: seq<nat>, parent: nat, t: map<Name, Slot>)
    requires DirOk(disk, c, parent, t) && Agree(disk, disk', c)
    ensures DirOk(disk', c, parent, t) && Lists(disk', c) == Lists(disk, c)
  {
    hide Index, Packed, DirChain;
    FrameDir(disk, disk', c, parent);
  }

  /** The disk changed only outside the chains, and only pending blocks changed their marks. */
  lemma Frame(disk: seq<Block>, disk': seq<Block>, marked: set<nat>, marked': set<nat>, sh: Shape,
              pend: set<nat>, pend': set<nat>, skip: Detached)
    requires Wf(disk, marked, sh, pend, skip) && OwnedSame(disk, disk', sh)
    requires MarksOk(|disk|, marked', sh, pend')
    ensures Wf(disk', marked', sh, pend', skip)
    ensures TreeOf(disk', sh) == TreeOf(disk, sh) && FilesOf(disk', sh) == FilesOf(disk, sh)
  {
    hide DirOk, DataChain, Lists, Flat, Listing, Index, RefsOk, DepthOk, MarksOk, Agree, ChainOwned;
    forall h | h in sh.chains ensures Agree(disk, disk', sh.chains[h]) {
      OwnedAgree(disk, disk', sh, h);
    }
    forall h | h in sh.slots
      ensures DirOk(disk', sh.chains[h], ParentOf(sh.up, h), sh.slots[h])
      ensures Lists(disk', sh.chains[h]) == Lists(disk, sh.chains[h])
    {
      DirFrame(disk, disk', sh.chains[h], ParentOf(sh.up, h), sh.slots[h]);
    }
    forall h | h in sh.chains && h !in sh.slots
      ensures DataChain(disk', sh.chains[h]) && Flat(disk', sh.chains[h]) == Flat(disk, sh.chains[h])
    {
      FrameData(disk, disk', sh.chains[h]);
    }
    assert TreeOf(disk', sh) == TreeOf(disk, sh);
  }

  // ----- changes of one chain -----

  /** The ownership after the chain of h became c. */
  ghost function Rechained(sh: Shape, h: nat, c: seq<nat>): Shape
    requires h in sh.chains
  {
    sh.(chains := sh.chains[h := c],
        own := (map b | b in sh.own && sh.own[b] != h :: sh.own[b]) + (map b | b in c :: h))
  }

  /** c may become the chain of h: it starts with h, has no repetition, and takes no block from
      another chain. */
  ghost predicate Fits(sh: Shape, h: nat, c: seq<nat>)
  {
    c != [] && c[0] == h && Distinct(c) && forall b :: b in c && b in sh.own ==> sh.own[b] == h
  }

  lemma RechainedOwn(sh: Shape, h: nat, c: seq<nat>)
    requires OwnOk(sh) && h in sh.chains && Fits(sh, h, c)
    ensures OwnOk(Rechained(sh, h, c))
    ensures Rechained(sh, h, c).own.Keys == sh.own.Keys - Elems(sh.chains[h]) + Elems(c)
  {
    var sh' := Rechained(sh, h, c);
    assert ChainOwned(sh, h);
    forall x | x in sh'.chains ensures ChainOwned(sh', x) {
      assert x != h ==> ChainOwned(sh, x);
    }
    assert forall b :: b in sh.own ==> (sh.own[b] == h <==> b in sh.chains[h]);
  }

  /** Directory h changed its chain and items; nothing else did. */
  lemma DirUpdated(disk: seq<Block>, disk': seq<Block>, sh: Shape, h: nat, c: seq<nat>, t: map<Name, Slot>)
    requires OwnOk(sh) && DirsOk(disk, sh) && FilesOk(disk, sh) && |disk| == |disk'|
    requires h in sh.slots && h in sh.chains && Fits(sh, h, c) && DirOk(disk', c, ParentOf(sh.up, h), t)
    requires forall b :: b in sh.own && b < |disk| && sh.own[b] != h ==> disk'[b] == disk[b]
    ensures var sh' := Rechained(sh, h, c).(slots := sh.slots[h := t]);
      && OwnOk(sh') && DirsOk(disk', sh') && FilesOk(disk', sh')
      && FilesOf(disk', sh') == FilesOf(disk, sh)
      && TreeOf(disk', sh') == TreeOf(disk, sh)[h := Listing(Lists(disk', c), t)]
  {
    hide DirOk, DirsOk, FilesOk, TreeOf, FilesOf, Lists, Listing, OwnOk, Rechained, Fits, Agree;
    var sh' := Rechained(sh, h, c).(slots := sh.slots[h := t]);
    RechainedOwn(sh, h, c);
    OwnIgnoresSlots(Rechained(sh, h, c), sh');
    assert sh'.chains == sh.chains[h := c] && sh'.up == sh.up by { RechainedIs(sh, h, c); }
    forall x | x in sh.chains && x != h ensures Agree(disk, disk', sh.chains[x]) {
      OwnedAgree(disk, disk', sh, x);
    }
    OtherDirs(disk, disk', sh, sh', h, c, t);
    OtherFiles(disk, disk', sh, sh', h, c);
  }

  lemma RechainedIs(sh: Shape, h: nat, c: seq<nat>)
    requires h in sh.chains
    ensures Rechained(sh, h, c).chains == sh.chains[h := c] && Rechained(sh, h, c).up == sh.up
  {
  }

  /** The directories, when only that of h changed. */
  lemma OtherDirs(disk: seq<Block>, disk': seq<Block>, sh: Shape, sh': Shape, h: nat, c: seq<nat>, t: map<Name, Slot>)
    requires DirsOk(disk, sh) && h in sh.slots && h in sh.chains && DirOk(disk', c, ParentOf(sh.up, h), t)
    requires sh'.chains == sh.chains[h := c] && sh'.slots == sh.slots[h := t] && sh'.up == sh.up
    requires forall x :: x in sh.chains && x != h ==> Agree(disk, disk', sh.chains[x])
    ensures DirsOk(disk', sh') && TreeOf(disk', sh') == TreeOf(disk, sh)[h := Listing(Lists(disk', c), t)]
  {
    hide DirOk, Lists, Listing, Agree, ParentOf, TreeOf;
    forall x | x in sh.slots && x != h
      ensures DirOk(disk', sh.chains[x], ParentOf(sh.up, x), sh.slots[x])
      ensures Lists(disk', sh.chains[x]) == Lists(disk, sh.chains[x])
    {
      DirFrame(disk, disk', sh.chains[x], ParentOf(sh.up, x), sh.slots[x]);
    }
    TreeChanged(disk, disk', sh, sh', h, c, t);
  }

  lemma TreeChanged(disk: seq<Block>, disk': seq<Block>, sh: Shape, sh': Shape, h: nat, c: seq<nat>, t: map<Name, Slot>)
    requires h in sh.slots && h in sh.chains && sh'.chains == sh.chains[h := c] && sh'.slots == sh.slots[h := t]
    requires forall x :: x in sh.slots && x in sh.chains && x != h ==>
      Lists(disk', sh.chains[x]) == Lists(disk, sh.chains[x])
    ensures TreeOf(disk', sh') == TreeOf(disk, sh)[h := Listing(Lists(disk', c), t)]
  {
    hide Lists, Listing;
  }

  /** The files, when only the directory h changed. */
  lemma OtherFiles(disk: seq<Block>, disk': seq<Block>, sh: Shape, sh': Shape, h: nat, c: seq<nat>)
    requires FilesOk(disk, sh) && h in sh.slots && h in sh.chains
    requires sh'.chains == sh.chains[h := c] && sh'.slots.Keys == sh.slots.Keys
    requires forall x :: x in sh.chains && x != h ==> Agree(disk, disk', sh.chains[x])
    ensures FilesOk(disk', sh') && FilesOf(disk', sh') == FilesOf(disk, sh)
  {
    hide DataChain, Flat, Agree;
    forall x | x in sh.chains && x !in sh.slots
      ensures DataChain(disk', sh.chains[x]) && Flat(disk', sh.chains[x]) == Flat(disk, sh.chains[x])
    {
      FrameData(disk, disk', sh.chains[x]);
    }
    assert FilesOf(disk', sh') == FilesOf(disk, sh);
  }

  lemma OwnIgnoresSlots(a: Shape, b: Shape)
    requires OwnOk(a) && b.chains == a.chains && b.own == a.own
    ensures OwnOk(b)
  {
    assert forall x :: x in a.chains ==> ChainOwned(a, x);
  }

  /** A new chain c, made of blocks that belonged to no chain, becomes the chain of c[0]. */
  ghost function WithChain(sh: Shape, c: seq<nat>, e: Entry): Shape
    requires c != []
  {
    sh.(chains := sh.chains[c[0] := c], own := sh.own + (map b | b in c :: c[0]), up := sh.up[c[0] := e])
  }

  lemma HeadsOwned(sh: Shape)
    requires OwnOk(sh)
    ensures sh.chains.Keys <= sh.own.Keys
  {
    forall x | x in sh.chains ensures x in sh.own {
      assert ChainOwned(sh, x) && sh.chains[x][0] in sh.chains[x];
    }
  }

  lemma WithChainOwn(sh: Shape, c: seq<nat>, e: Entry)
    requires OwnOk(sh) && c != [] && Distinct(c) && Elems(c) !! sh.own.Keys
    ensures c[0] !in sh.chains && OwnOk(WithChain(sh, c, e))
    ensures WithChain(sh, c, e).own.Keys == sh.own.Keys + Elems(c)
  {
    var sh' := WithChain(sh, c, e);
    assert c[0] !in sh.chains by {
      assert c[0] in Elems(c);
      HeadsOwned(sh);
    }
    forall x | x in sh'.chains ensures ChainOwned(sh', x) {
      assert x != c[0] ==> ChainOwned(sh, x);
    }
  }

  /** The chain of h is taken out of the books. */
  ghost function WithoutChain(sh: Shape, h: nat): Shape
  {
    sh.(chains := sh.chains - {h}, own := map b | b in sh.own && sh.own[b] != h :: sh.own[b],
        up := sh.up - {h}, slots := sh.slots - {h})
  }

  lemma WithoutChainOwn(sh: Shape, h: nat)
    requires OwnOk(sh) && h in sh.chains
    ensures OwnOk(WithoutChain(sh, h))
    ensures WithoutChain(sh, h).own.Keys == sh.own.Keys - Elems(sh.chains[h])
    ensures Elems(sh.chains[h]) <= sh.own.Keys
  {
    var sh' := WithoutChain(sh, h);
    assert ChainOwned(sh, h);
    forall x | x in sh'.chains ensures ChainOwned(sh', x) {
      assert ChainOwned(sh, x);
    }
    assert forall b :: b in sh.own ==> (sh.own[b] == h <==> b in sh.chains[h]);
  }
}
