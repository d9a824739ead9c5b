/** How adding, moving and removing chains and entries keeps the volume invariant. */
module Links {
  import opened Layout
  import opened Shapes
  import opened Volume
  import opened Chains
  import opened Directory
  import opened Tree

  ghost function PutEntry(T: Listings, e: Entry, it: Item): Listings
    requires e.dir in T
  {
    T[e.dir := T[e.dir][e.name := it]]
  }

  ghost function DropEntry(T: Listings, e: Entry): Listings
    requires e.dir in T
  {
    T[e.dir := T[e.dir] - {e.name}]
  }

  // ----- entries and chains correspond one to one -----

  lemma RefsHead(T: Listings, heads: set<nat>, up: map<nat, Entry>, skip: Detached)
    requires RefsOk(T, heads, up, skip)
    ensures ROOT in T && T.Keys <= heads && 0 !in heads
  {
  }

  lemma RefsNewDir(T: Listings, heads: set<nat>, up: map<nat, Entry>, e: Entry, it: Item)
    requires RefsOk(T, heads, up, Nothing) && e.dir in T && e.name !in T[e.dir]
    requires it.typ == Dir && it.name == e.name && it.blk !in heads && it.blk != 0
    ensures RefsOk(PutEntry(T, e, it)[it.blk := map[]], heads + {it.blk}, up[it.blk := e], Nothing)
  {
    var T', x := PutEntry(T, e, it)[it.blk := map[]], it.blk;
    forall h, nm | h in T' && nm in T'[h]
      ensures ItemOk(T'[h][nm], Entry(h, nm), T'.Keys, heads + {x}, up[x := e])
    {
      if h != x && Entry(h, nm) != e {
        assert ItemOk(T[h][nm], Entry(h, nm), T.Keys, heads, up);
      }
    }
    forall y | y in heads + {x} && y != ROOT ensures RefAt(T', up[x := e], Nothing, y) {
      assert y != x ==> RefAt(T, up, Nothing, y);
    }
  }

  /** Adding a file entry, or changing a detached one: its chain is still to be attached. */
  lemma RefsPutFile(T: Listings, heads: set<nat>, up: map<nat, Entry>, skip: Detached, e: Entry, it: Item)
    requires RefsOk(T, heads, up, skip) && e.dir in T
    requires if skip == Nothing then e.name !in T[e.dir] else skip == Detach(e)
    requires it.typ == File && it.name == e.name
    ensures RefsOk(PutEntry(T, e, it), heads, up, Detach(e))
  {
    var T' := PutEntry(T, e, it);
    assert T'.Keys == T.Keys;
    forall h, nm | h in T' && nm in T'[h] && Entry(h, nm) != e
      ensures ItemOk(T'[h][nm], Entry(h, nm), T'.Keys, heads, up)
    {
      assert ItemOk(T[h][nm], Entry(h, nm), T.Keys, heads, up);
    }
    forall y | y in heads && y != ROOT ensures RefAt(T', up, Detach(e), y) {
      assert RefAt(T, up, skip, y);
    }
  }

  lemma RefsAttach(T: Listings, heads: set<nat>, up: map<nat, Entry>, e: Entry, x: nat)
    requires RefsOk(T, heads, up, Detach(e)) && T[e.dir][e.name].blk == x && T[e.dir][e.name].typ == File
    requires x != 0 ==> x !in heads
    ensures if x == 0 then RefsOk(T, heads, up, Nothing) else RefsOk(T, heads + {x}, up[x := e], Nothing)
  {
    var heads', up' := if x == 0 then heads else heads + {x}, if x == 0 then up else up[x := e];
    forall h, nm | h in T && nm in T[h]
      ensures ItemOk(T[h][nm], Entry(h, nm), T.Keys, heads', up')
    {
      assert Entry(h, nm) != e ==> ItemOk(T[h][nm], Entry(h, nm), T.Keys, heads, up);
    }
    forall y | y in heads' && y != ROOT ensures RefAt(T, up', Nothing, y) {
      assert y in heads ==> RefAt(T, up, Detach(e), y);
    }
  }

  lemma RefsDetach(T: Listings, heads: set<nat>, up: map<nat, Entry>, e: Entry)
    requires RefsOk(T, heads, up, Nothing) && e.dir in T && e.name in T[e.dir] && T[e.dir][e.name].typ == File
    ensures var x := T[e.dir][e.name].blk;
      if x == 0 then RefsOk(T, heads, up, Detach(e))
      else x in heads && x !in T && RefsOk(T, heads - {x}, up - {x}, Detach(e))
  {
    var x := T[e.dir][e.name].blk;
    assert ItemOk(T[e.dir][e.name], e, T.Keys, heads, up);
    var heads', up' := if x == 0 then heads else heads - {x}, if x == 0 then up else up - {x};
    forall h, nm | h in T && nm in T[h] && Entry(h, nm) != e
      ensures ItemOk(T[h][nm], Entry(h, nm), T.Keys, heads', up')
    {
      assert ItemOk(T[h][nm], Entry(h, nm), T.Keys, heads, up);
    }
    forall y | y in heads' && y != ROOT ensures RefAt(T, up', Detach(e), y) {
      assert RefAt(T, up, Nothing, y);
    }
  }

  lemma RefsDropDetached(T: Listings, heads: set<nat>, up: map<nat, Entry>, e: Entry)
    requires RefsOk(T, heads, up, Detach(e))
    ensures RefsOk(DropEntry(T, e), heads, up, Nothing)
  {
    var T' := DropEntry(T, e);
    assert T'.Keys == T.Keys;
    forall h, nm | h in T' && nm in T'[h]
      ensures ItemOk(T'[h][nm], Entry(h, nm), T'.Keys, heads, up)
    {
      assert ItemOk(T[h][nm], Entry(h, nm), T.Keys, heads, up);
    }
    forall y | y in heads && y != ROOT ensures RefAt(T', up, Nothing, y) {
      assert RefAt(T, up, Detach(e), y);
    }
  }

  /** An empty directory can be taken out of the tree before its entry is removed. */
  lemma RefsDetachDir(T: Listings, heads: set<nat>, up: map<nat, Entry>, e: Entry)
    requires RefsOk(T, heads, up, Nothing) && e.dir in T && e.name in T[e.dir] && T[e.dir][e.name].typ == Dir
    ensures var x := T[e.dir][e.name].blk;
      x in T && x != ROOT && (T[x] == map[] ==> x != e.dir && RefsOk(T - {x}, heads - {x}, up - {x}, Detach(e)))
  {
    var x := T[e.dir][e.name].blk;
    assert ItemOk(T[e.dir][e.name], e, T.Keys, heads, up);
    if T[x] == map[] {
      var T' := T - {x};
      forall h, nm | h in T' && nm in T'[h] && Entry(h, nm) != e
        ensures ItemOk(T'[h][nm], Entry(h, nm), T'.Keys, heads - {x}, up - {x})
      {
        assert ItemOk(T[h][nm], Entry(h, nm), T.Keys, heads, up);
      }
      forall y | y in heads - {x} && y != ROOT ensures RefAt(T', up - {x}, Detach(e), y) {
        assert RefAt(T, up, Nothing, y);
      }
    }
  }

  ghost function UpMoved(up: map<nat, Entry>, blk: nat, e: Entry): map<nat, Entry>
  {
    if blk == 0 then up else up[blk := e]
  }

  /** The listings after entry e was renamed to m. */
  ghost function RenamedListings(T: Listings, e: Entry, m: Name): Listings
    requires e.dir in T && e.name in T[e.dir]
  {
    PutEntry(DropEntry(T, e), Entry(e.dir, m), T[e.dir][e.name].(name := m))
  }

  lemma RenamedItem(T: Listings, heads: set<nat>, up: map<nat, Entry>, e: Entry, m: Name, f: Entry)
    requires RefsOk(T, heads, up, Nothing) && e.dir in T && e.name in T[e.dir] && m !in T[e.dir]
    requires var T' := RenamedListings(T, e, m); f.dir in T' && f.name in T'[f.dir]
    ensures var T' := RenamedListings(T, e, m);
      ItemOk(T'[f.dir][f.name], f, T.Keys, heads, UpMoved(up, T[e.dir][e.name].blk, Entry(e.dir, m)))
  {
    assert ItemOk(T[e.dir][e.name], e, T.Keys, heads, up);
    if f != Entry(e.dir, m) {
      assert ItemOk(T[f.dir][f.name], f, T.Keys, heads, up);
    }
  }

  lemma RenamedHead(T: Listings, heads: set<nat>, up: map<nat, Entry>, e: Entry, m: Name, y: nat)
    requires RefsOk(T, heads, up, Nothing) && e.dir in T && e.name in T[e.dir] && m !in T[e.dir]
    requires y in heads && y != ROOT
    ensures RefAt(RenamedListings(T, e, m), UpMoved(up, T[e.dir][e.name].blk, Entry(e.dir, m)), Nothing, y)
  {
    assert ItemOk(T[e.dir][e.name], e, T.Keys, heads, up) && RefAt(T, up, Nothing, y);
    if y == T[e.dir][e.name].blk {
      assert up[y] == e;
    } else {
      assert up[y] != e && up[y] != Entry(e.dir, m);
    }
  }

  lemma RefsRename(T: Listings, heads: set<nat>, up: map<nat, Entry>, e: Entry, m: Name)
    requires RefsOk(T, heads, up, Nothing) && e.dir in T && e.name in T[e.dir] && m !in T[e.dir]
    ensures RefsOk(RenamedListings(T, e, m), heads, UpMoved(up, T[e.dir][e.name].blk, Entry(e.dir, m)), Nothing)
  {
    hide ItemOk, RefAt, UpMoved;
    var T', up' := RenamedListings(T, e, m), UpMoved(up, T[e.dir][e.name].blk, Entry(e.dir, m));
    assert T'.Keys == T.Keys;
    forall h, nm | h in T' && nm in T'[h]
      ensures ItemOk(T'[h][nm], Entry(h, nm), T'.Keys, heads, up')
    {
      RenamedItem(T, heads, up, e, m, Entry(h, nm));
    }
    forall y | y in heads && y != ROOT ensures RefAt(T', up', Nothing, y) {
      RenamedHead(T, heads, up, e, m, y);
    }
  }

  // ----- whole chains come and go -----

  /** The two books differ at most in the chain of x. */
  ghost predicate BooksAgree(sh: Shape, sh': Shape, x: nat)
  {
    && (forall h :: h != x ==> (h in sh'.slots <==> h in sh.slots) && (h in sh'.chains <==> h in sh.chains))
    && (forall h :: h in sh.slots && h != x ==>
         sh'.slots[h] == sh.slots[h] && ParentOf(sh'.up, h) == ParentOf(sh.up, h))
    && (forall h :: h in sh.chains && h != x ==> sh'.chains[h] == sh.chains[h])
  }

  lemma DirsKept(disk: seq<Block>, sh: Shape, sh': Shape, x: nat)
    requires DirsOk(disk, sh) && BooksAgree(sh, sh', x)
    requires x in sh'.slots ==> x in sh'.chains && DirOk(disk, sh'.chains[x], ParentOf(sh'.up, x), sh'.slots[x])
    ensures DirsOk(disk, sh')
    ensures TreeOf(disk, sh') == if x in sh'.slots
      then TreeOf(disk, sh)[x := Listing(Lists(disk, sh'.chains[x]), sh'.slots[x])] else TreeOf(disk, sh) - {x}
  {
    hide DirOk, Lists, Listing, TreeOf;
    TreeKept(disk, sh, sh', x);
  }

  lemma TreeKept(disk: seq<Block>, sh: Shape, sh': Shape, x: nat)
    requires BooksAgree(sh, sh', x) && (x in sh'.slots ==> x in sh'.chains)
    ensures TreeOf(disk, sh') == if x in sh'.slots
      then TreeOf(disk, sh)[x := Listing(Lists(disk, sh'.chains[x]), sh'.slots[x])] else TreeOf(disk, sh) - {x}
  {
    hide Lists, Listing, ParentOf;
  }

  lemma FilesKept(disk: seq<Block>, sh: Shape, sh': Shape, x: nat)
    requires FilesOk(disk, sh) && BooksAgree(sh, sh', x)
    requires x in sh'.chains && x !in sh'.slots ==> DataChain(disk, sh'.chains[x])
    ensures FilesOk(disk, sh')
    ensures FilesOf(disk, sh') == if x in sh'.chains && x !in sh'.slots
      then FilesOf(disk, sh)[x := Flat(disk, sh'.chains[x])] else FilesOf(disk, sh) - {x}
  {
    hide DataChain, Flat;
  }

  lemma TreeKeys(disk: seq<Block>, sh: Shape)
    requires DirsOk(disk, sh)
    ensures TreeOf(disk, sh).Keys == sh.slots.Keys
  {
  }

  /** A new, empty directory with the single block x. */
  ghost function WithDir(sh: Shape, x: nat, e: Entry): Shape
  {
    var sh' := WithChain(sh, [x], e);
    sh'.(slots := sh.slots[x := map[]],
         depth := sh.depth[x := if e.dir in sh.depth then sh.depth[e.dir] + 1 else 0])
  }

  lemma DirAdded(disk: seq<Block>, sh: Shape, x: nat, e: Entry)
    requires OwnOk(sh) && DirsOk(disk, sh) && FilesOk(disk, sh)
    requires x !in sh.own && x != ROOT && Usable(x, |disk|) && disk[x] == DirBlk(0, 0, e.dir, FreeItems())
    ensures var sh' := WithDir(sh, x, e);
      && OwnOk(sh') && DirsOk(disk, sh') && FilesOk(disk, sh') && sh'.own.Keys == sh.own.Keys + {x}
      && x !in sh.chains
      && TreeOf(disk, sh') == TreeOf(disk, sh)[x := map[]] && FilesOf(disk, sh') == FilesOf(disk, sh)
  {
    hide BooksAgree, DirOk, DirsOk, FilesOk, DataChain, Lists, Flat, Listing, OwnOk, TreeOf, FilesOf;
    var sh' := WithDir(sh, x, e);
    assert Distinct([x]) && Elems([x]) == {x};
    WithChainOwn(sh, [x], e);
    OwnIgnoresSlots(WithChain(sh, [x], e), sh');
    NewDirOk(disk, x, e.dir);
    WithDirBooks(disk, sh, x, e);
    DirsKept(disk, sh, sh', x);
    FilesKept(disk, sh, sh', x);
    NotAFile(disk, sh, x);
  }

  lemma DirsAreChains(disk: seq<Block>, sh: Shape)
    requires DirsOk(disk, sh)
    ensures forall h :: h in sh.slots ==> h in sh.chains
  {
  }

  lemma WithDirBooks(disk: seq<Block>, sh: Shape, x: nat, e: Entry)
    requires x !in sh.chains && x != ROOT && DirsOk(disk, sh)
    ensures BooksAgree(sh, WithDir(sh, x, e), x) && x !in sh.slots && ParentOf(WithDir(sh, x, e).up, x) == e.dir
  {
    hide DirsOk;
    DirsAreChains(disk, sh);
    var sh' := WithDir(sh, x, e);
    assert sh'.up == sh.up[x := e] && sh'.slots == sh.slots[x := map[]] && sh'.chains == sh.chains[x := [x]];
  }

  lemma NotAFile(disk: seq<Block>, sh: Shape, x: nat)
    requires FilesOk(disk, sh) && (x !in sh.chains || x in sh.slots)
    ensures FilesOf(disk, sh) - {x} == FilesOf(disk, sh)
  {
  }

  lemma NotADir(disk: seq<Block>, sh: Shape, x: nat)
    requires x !in sh.slots
    ensures TreeOf(disk, sh) - {x} == TreeOf(disk, sh)
  {
  }

  lemma NewDirOk(disk: seq<Block>, x: nat, parent: nat)
    requires Usable(x, |disk|) && disk[x] == DirBlk(0, 0, parent, FreeItems())
    ensures DirOk(disk, [x], parent, map[]) && Listing(Lists(disk, [x]), map[]) == map[]
  {
    assert DirAt(disk, [x], parent, 0);
  }

  lemma WithoutChainBooks(sh: Shape, x: nat)
    ensures BooksAgree(sh, WithoutChain(sh, x), x) && x !in WithoutChain(sh, x).chains
    ensures x !in WithoutChain(sh, x).slots
  {
  }

  lemma WithChainBooks(sh: Shape, c: seq<nat>, e: Entry)
    requires c != []
    ensures BooksAgree(sh, WithChain(sh, c, e), c[0]) && WithChain(sh, c, e).chains == sh.chains[c[0] := c]
    ensures WithChain(sh, c, e).slots == sh.slots && WithChain(sh, c, e).depth == sh.depth
    ensures WithChain(sh, c, e).up == sh.up[c[0] := e]
  {
  }

  lemma DirRemoved(disk: seq<Block>, sh: Shape, x: nat)
    requires OwnOk(sh) && DirsOk(disk, sh) && FilesOk(disk, sh) && x in sh.slots && x != ROOT
    ensures x in sh.chains
    ensures var sh' := WithoutChain(sh, x);
      && OwnOk(sh') && DirsOk(disk, sh') && FilesOk(disk, sh')
      && sh'.own.Keys == sh.own.Keys - Elems(sh.chains[x])
      && TreeOf(disk, sh') == TreeOf(disk, sh) - {x} && FilesOf(disk, sh') == FilesOf(disk, sh)
  {
    hide BooksAgree, DirOk, DirsOk, FilesOk, DataChain, Lists, Flat, Listing, OwnOk, TreeOf, FilesOf, Elems;
    var sh' := WithoutChain(sh, x);
    DirsAreChains(disk, sh);
    WithoutChainOwn(sh, x);
    WithoutChainBooks(sh, x);
    DirsKept(disk, sh, sh', x);
    FilesKept(disk, sh, sh', x);
    NotAFile(disk, sh, x);
  }

  lemma FileAdded(disk: seq<Block>, sh: Shape, c: seq<nat>, e: Entry)
    requires OwnOk(sh) && DirsOk(disk, sh) && FilesOk(disk, sh)
    requires DataChain(disk, c) && c != [] && Elems(c) !! sh.own.Keys
    ensures var sh' := WithChain(sh, c, e);
      && OwnOk(sh') && DirsOk(disk, sh') && FilesOk(disk, sh') && sh'.own.Keys == sh.own.Keys + Elems(c)
      && c[0] !in sh.chains
      && TreeOf(disk, sh') == TreeOf(disk, sh) && FilesOf(disk, sh') == FilesOf(disk, sh)[c[0] := Flat(disk, c)]
  {
    hide BooksAgree, DirOk, DirsOk, FilesOk, Lists, Flat, Listing, OwnOk, TreeOf, FilesOf, Elems, DataAt;
    var sh' := WithChain(sh, c, e);
    WithChainOwn(sh, c, e);
    DirsAreChains(disk, sh);
    WithChainBooks(sh, c, e);
    DirsKept(disk, sh, sh', c[0]);
    FilesKept(disk, sh, sh', c[0]);
    NotADir(disk, sh, c[0]);
  }

  lemma FileRemoved(disk: seq<Block>, sh: Shape, x: nat)
    requires OwnOk(sh) && DirsOk(disk, sh) && FilesOk(disk, sh) && x in sh.chains && x !in sh.slots
    ensures var sh' := WithoutChain(sh, x);
      && OwnOk(sh') && DirsOk(disk, sh') && FilesOk(disk, sh')
      && sh'.own.Keys == sh.own.Keys - Elems(sh.chains[x])
      && TreeOf(disk, sh') == TreeOf(disk, sh) && FilesOf(disk, sh') == FilesOf(disk, sh) - {x}
  {
    hide BooksAgree, DirOk, DirsOk, FilesOk, DataChain, Lists, Flat, Listing, OwnOk, TreeOf, FilesOf, Elems;
    var sh' := WithoutChain(sh, x);
    DirsAreChains(disk, sh);
    WithoutChainOwn(sh, x);
    WithoutChainBooks(sh, x);
    DirsKept(disk, sh, sh', x);
    FilesKept(disk, sh, sh', x);
    NotADir(disk, sh, x);
  }

  /** 0 stands for "no block": no chain starts there. */
  lemma NoChainZero(disk: seq<Block>, marked: set<nat>, sh: Shape)
    requires Wf(disk, marked, sh, {}, Nothing)
    ensures 0 !in sh.chains && 0 !in sh.slots
  {
    hide OwnOk, DirsOk, FilesOk, DepthOk, MarksOk, TreeOf;
    TreeKeys(disk, sh);
    RefsHead(TreeOf(disk, sh), sh.chains.Keys, sh.up, Nothing);
  }

  /** The two trees have the same directories and entries; only file items may differ. */
  ghost predicate SameSkeleton(T: Listings, T': Listings)
  {
    && T'.Keys == T.Keys && (forall d :: d in T ==> T'[d].Keys == T[d].Keys)
    && forall d, n :: d in T && n in T[d] ==> SameKind(T[d][n], T'[d][n])
  }

  ghost predicate SameKind(a: Item, b: Item)
  {
    a.typ == b.typ && (a.typ == Dir ==> a == b)
  }

  // ----- what stays in its place -----

  ghost predicate PrefixOf(c: seq<nat>, d: seq<nat>) { |c| <= |d| && d[..|c|] == c }

  lemma PrefixTwice(a: seq<nat>, b: seq<nat>, c: seq<nat>)
    requires PrefixOf(a, b) && PrefixOf(b, c)
    ensures PrefixOf(a, c)
  {
    assert c[..|a|] == c[..|b|][..|a|];
  }

  /** Entries outside s are where they were, directories have at most grown, and files with heads
      outside xs have the same blocks. */
  ghost predicate Kept(sh: Shape, sh': Shape, s: set<Entry>, xs: set<nat>)
  {
    && (forall h, n :: h in sh.slots && n in sh.slots[h] && Entry(h, n) !in s ==>
          h in sh'.slots && n in sh'.slots[h] && sh'.slots[h][n] == sh.slots[h][n])
    && (forall h :: h in sh.slots && h in sh.chains ==>
          h in sh'.slots && h in sh'.chains && PrefixOf(sh.chains[h], sh'.chains[h]))
    && (forall y :: y in sh.chains && y !in sh.slots && y !in xs ==>
          y in sh'.chains && sh'.chains[y] == sh.chains[y] && y !in sh'.slots)
  }

  lemma KeptSelf(sh: Shape, s: set<Entry>, xs: set<nat>)
    ensures Kept(sh, sh, s, xs)
  {
  }

  lemma KeptTwice(a: Shape, b: Shape, c: Shape, s: set<Entry>, xs: set<nat>, t: set<Entry>, ys: set<nat>,
                  u: set<Entry>, zs: set<nat>)
    requires Kept(a, b, s, xs) && Kept(b, c, t, ys) && s <= u && t <= u && xs <= zs && ys <= zs
    ensures Kept(a, c, u, zs)
  {
    hide PrefixOf;
    forall h | h in a.slots && h in a.chains
      ensures h in c.slots && h in c.chains && PrefixOf(a.chains[h], c.chains[h])
    {
      PrefixTwice(a.chains[h], b.chains[h], c.chains[h]);
    }
  }

  lemma KeptMore(a: Shape, b: Shape, s: set<Entry>, xs: set<nat>, t: set<Entry>, ys: set<nat>)
    requires Kept(a, b, s, xs) && s <= t && xs <= ys
    ensures Kept(a, b, t, ys)
  {
    hide PrefixOf;
  }

  lemma KeptRechained(sh: Shape, h: nat, c: seq<nat>)
    requires h in sh.chains && h in sh.slots && PrefixOf(sh.chains[h], c)
    ensures Kept(sh, Rechained(sh, h, c), {}, {})
  {
  }

  /** Entry n of directory h got a slot, or another one. */
  lemma KeptSlot(sh: Shape, h: nat, n: Name, s: Slot)
    requires h in sh.slots
    ensures Kept(sh, sh.(slots := sh.slots[h := sh.slots[h][n := s]]), {Entry(h, n)}, {})
  {
  }

  lemma KeptWithChain(sh: Shape, c: seq<nat>, e: Entry)
    requires c != [] && c[0] !in sh.chains
    ensures Kept(sh, WithChain(sh, c, e), {}, {})
  {
  }

  lemma KeptWithDir(sh: Shape, x: nat, e: Entry)
    requires x !in sh.chains && x !in sh.slots
    ensures Kept(sh, WithDir(sh, x, e), {}, {})
  {
  }

  lemma KeptWithoutChain(sh: Shape, x: nat)
    requires x !in sh.slots
    ensures Kept(sh, WithoutChain(sh, x), {}, {x})
  {
  }
}
