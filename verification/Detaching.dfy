/** Taking a chain out of the books while it is rebuilt or freed, and putting it back. While an
    entry is detached, the blocks of its chain are "pending": marked, but owned by no chain. */
module Detaching {
  import opened Layout
  import opened Shapes
  import opened Volume
  import opened Chains
  import opened Directory
  import opened Tree
  import opened Links
  import opened Mounted

  ghost predicate HasFile(T: Listings, e: Entry)
  {
    e.dir in T && e.name in T[e.dir] && T[e.dir][e.name].typ == File
  }

  ghost predicate HasDir(T: Listings, e: Entry)
  {
    e.dir in T && e.name in T[e.dir] && T[e.dir][e.name].typ == Dir
  }

  ghost function FileChain(sh: Shape, x: nat): seq<nat>
  {
    if x in sh.chains then sh.chains[x] else []
  }

  ghost function Without(sh: Shape, x: nat): Shape
  {
    if x == 0 then sh else WithoutChain(sh, x)
  }

  ghost function With(sh: Shape, c: seq<nat>, e: Entry): Shape
  {
    if c == [] then sh else WithChain(sh, c, e)
  }

  lemma DepthKept(dirs: set<nat>, up: map<nat, Entry>, up': map<nat, Entry>, depth: map<nat, nat>)
    requires DepthOk(dirs, up, depth)
    requires forall h :: h in dirs && h in up ==> h in up' && up'[h].dir == up[h].dir
    ensures DepthOk(dirs, up', depth)
  {
  }

  lemma DepthShrunk(T: Listings, up: map<nat, Entry>, depth: map<nat, nat>, x: nat, heads: set<nat>)
    requires DepthOk(T.Keys, up, depth) && x in T && T[x] == map[] && x != ROOT
    requires RefsOk(T, heads, up, Nothing)
    ensures DepthOk(T.Keys - {x}, up - {x}, depth)
  {
    forall h | h in T && h != ROOT ensures up[h].dir != x {
      assert RefAt(T, up, Nothing, h);
    }
  }

  lemma WithoutFields(sh: Shape, x: nat)
    ensures var sh' := WithoutChain(sh, x);
      && sh'.chains.Keys == sh.chains.Keys - {x} && sh'.slots.Keys == sh.slots.Keys - {x}
      && sh'.up == sh.up - {x} && sh'.depth == sh.depth
  {
  }

  /** A file is taken out of the books: its blocks become pending. */
  lemma DetachFile(disk: seq<Block>, marked: set<nat>, sh: Shape, e: Entry)
    requires Wf(disk, marked, sh, {}, Nothing)
    requires HasFile(TreeOf(disk, sh), e)
    ensures var x := TreeOf(disk, sh)[e.dir][e.name].blk;
      && DataChain(disk, FileChain(sh, x)) && HeadOf(FileChain(sh, x)) == x
      && (x != 0 ==> x in sh.chains && x !in sh.slots)
      && Wf(disk, marked, Without(sh, x), Elems(FileChain(sh, x)), Detach(e))
      && TreeOf(disk, Without(sh, x)) == TreeOf(disk, sh)
      && FilesOf(disk, Without(sh, x)) == FilesOf(disk, sh) - {x}
      && Without(sh, x).slots == sh.slots
      && (forall h :: h in sh.slots && h in sh.chains ==>
           h in Without(sh, x).chains && Without(sh, x).chains[h] == sh.chains[h])
  {
    hide OwnOk, DirsOk, FilesOk, Lists, Listing, TreeOf, FilesOf, DirChain, DataAt, Distinct,
      RefsOk, DepthOk, MarksOk, WithoutChain, Usable, ParentOf;
    var T: Listings := TreeOf(disk, sh);
    var x := T[e.dir][e.name].blk;
    TreeKeys(disk, sh);
    RefsHead(T, sh.chains.Keys, sh.up, Nothing);
    RefsDetach(T, sh.chains.Keys, sh.up, e);
    MarksImply(|disk|, marked, sh, {});
    if x == 0 {
      assert FileChain(sh, x) == [] && Elems(FileChain(sh, x)) == {};
      EmptyChain(disk);
      NotAFile(disk, sh, 0);
    } else {
      var sh' := WithoutChain(sh, x);
      ChainAt(disk, sh, x);
      FileRemoved(disk, sh, x);
      WithoutFields(sh, x);
      WithoutFileBooks(sh, x);
      WithoutChainOwn(sh, x);
      MarksChange(|disk|, marked, marked, sh, sh', {}, Elems(sh.chains[x]));
      DepthKept(T.Keys, sh.up, sh'.up, sh.depth);
    }
  }

  lemma EmptyChain(disk: seq<Block>)
    ensures DataChain(disk, []) && Flat(disk, []) == []
  {
  }

  lemma WithoutFileBooks(sh: Shape, x: nat)
    requires x !in sh.slots
    ensures WithoutChain(sh, x).slots == sh.slots
    ensures forall h :: h in sh.slots && h in sh.chains ==>
      h in WithoutChain(sh, x).chains && WithoutChain(sh, x).chains[h] == sh.chains[h]
  {
  }

  lemma ChainAt(disk: seq<Block>, sh: Shape, x: nat)
    requires OwnOk(sh) && FilesOk(disk, sh) && x in sh.chains && x !in sh.slots
    ensures DataChain(disk, sh.chains[x]) && sh.chains[x] != [] && sh.chains[x][0] == x
    ensures Elems(sh.chains[x]) <= sh.own.Keys
  {
    assert ChainOwned(sh, x);
  }

  /** A finished chain is put back under the entry that points to it. */
  lemma AttachFile(disk: seq<Block>, marked: set<nat>, sh: Shape, c: seq<nat>, e: Entry)
    requires Wf(disk, marked, sh, Elems(c), Detach(e)) && DataChain(disk, c)
    requires HasFile(TreeOf(disk, sh), e) && TreeOf(disk, sh)[e.dir][e.name].blk == HeadOf(c)
    ensures var sh' := With(sh, c, e);
      && Wf(disk, marked, sh', {}, Nothing) && TreeOf(disk, sh') == TreeOf(disk, sh)
      && FilesOf(disk, sh') == (if c == [] then FilesOf(disk, sh) else FilesOf(disk, sh)[c[0] := Flat(disk, c)])
      && (c != [] ==> c[0] !in sh.chains)
      && sh'.slots == sh.slots && (forall h :: h in sh.chains ==> h in sh'.chains && sh'.chains[h] == sh.chains[h])
  {
    hide OwnOk, DirsOk, FilesOk, Lists, Listing, TreeOf, FilesOf, DirChain, DataAt, Distinct, RefsOk, DepthOk,
      MarksOk, WithChain, Usable, ParentOf, Flat, DataChain, Index;
    var T: Listings := TreeOf(disk, sh);
    var x := HeadOf(c);
    TreeKeys(disk, sh);
    if c == [] {
      assert Elems(c) == {};
      RefsAttach(T, sh.chains.Keys, sh.up, e, 0);
    } else {
      var sh' := WithChain(sh, c, e);
      assert c[0] in Elems(c);
      MarksImply(|disk|, marked, sh, Elems(c));
      PendingApart(|disk|, marked, sh, Elems(c));
      DataDistinct(disk, c);
      FileAdded(disk, sh, c, e);
      WithChainBooks(sh, c, e);
      RefsAttach(T, sh.chains.Keys, sh.up, e, x);
      MarksChange(|disk|, marked, marked, sh, sh', Elems(c), {});
      RefsHead(T, sh.chains.Keys, sh.up, Detach(e));
      DepthKept(T.Keys, sh.up, sh'.up, sh.depth);
      assert sh'.chains.Keys == sh.chains.Keys + {x};
    }
  }

  lemma DataDistinct(disk: seq<Block>, c: seq<nat>)
    requires DataChain(disk, c)
    ensures Distinct(c)
  {
  }

  lemma PendingApart(n: nat, marked: set<nat>, sh: Shape, pend: set<nat>)
    requires MarksOk(n, marked, sh, pend)
    ensures pend !! sh.own.Keys && forall b :: b in pend ==> 0 < b < n && Usable(b, n)
  {
  }

  /** An empty directory is taken out of the tree ahead of its entry. */
  lemma DetachDir(disk: seq<Block>, marked: set<nat>, sh: Shape, e: Entry)
    requires Wf(disk, marked, sh, {}, Nothing)
    requires HasDir(TreeOf(disk, sh), e)
    ensures var x := TreeOf(disk, sh)[e.dir][e.name].blk;
      && x in sh.slots && x in sh.chains && x != ROOT && x in TreeOf(disk, sh) && x != 0
      && (TreeOf(disk, sh)[x] == map[] ==>
            && x != e.dir
            && Wf(disk, marked, WithoutChain(sh, x), Elems(sh.chains[x]), Detach(e))
            && TreeOf(disk, WithoutChain(sh, x)) == TreeOf(disk, sh) - {x}
            && FilesOf(disk, WithoutChain(sh, x)) == FilesOf(disk, sh))
  {
    hide OwnOk, DirsOk, FilesOk, Lists, Listing, TreeOf, FilesOf, DirChain, DataAt, Distinct,
      RefsOk, DepthOk, MarksOk, WithoutChain, Usable, ParentOf, Elems;
    var T: Listings := TreeOf(disk, sh);
    var x := T[e.dir][e.name].blk;
    TreeKeys(disk, sh);
    RefsHead(T, sh.chains.Keys, sh.up, Nothing);
    RefsDetachDir(T, sh.chains.Keys, sh.up, e);
    DirsAreChains(disk, sh);
    if T[x] == map[] {
      var sh' := WithoutChain(sh, x);
      MarksImply(|disk|, marked, sh, {});
      DirRemoved(disk, sh, x);
      WithoutFields(sh, x);
      WithoutChainOwn(sh, x);
      MarksChange(|disk|, marked, marked, sh, sh', {}, Elems(sh.chains[x]));
      DepthShrunk(T, sh.up, sh.depth, x, sh.chains.Keys);
    }
  }
}
