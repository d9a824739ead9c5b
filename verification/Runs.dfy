/** What holds after any run of operations on a formatted volume. */
module Runs {
  import opened Layout
  import opened Shapes
  import opened Volume
  import opened Chains
  import opened Tree
  import opened Links
  import opened Mounted
  import opened Format
  import opened Spaces
  import opened SpaceSteps

  /** Blocks of the chains whose heads satisfy `dirs`. */
  ghost function DirBlocks(sh: Shape): set<nat>
  {
    set h, b | h in sh.chains && h in sh.slots && b in sh.chains[h] :: b
  }

  ghost function FileBlocks(sh: Shape): set<nat>
  {
    set h, b | h in sh.chains && h !in sh.slots && b in sh.chains[h] :: b
  }

  /** Exact ownership: the blocks in use are the bitmap blocks, the blocks of directory chains and
      the blocks of file chains; nothing is in two of these sets, in two chains, or in use
      without belonging to one of them. */
  ghost predicate ExactlyOwned(g: Fs)
    reads g`marked, g`sh
  {
    && (set b | 0 <= b < g.blkCount && b in g.marked) == Homes(g.blkCount) + DirBlocks(g.sh) + FileBlocks(g.sh)
    && Homes(g.blkCount) !! DirBlocks(g.sh) !! FileBlocks(g.sh)
    && (forall x, y :: x in g.sh.chains && y in g.sh.chains && x != y ==>
         Elems(g.sh.chains[x]) !! Elems(g.sh.chains[y]))
    && (forall x :: x in g.sh.chains ==> Distinct(g.sh.chains[x]))
  }

  lemma OwnedBlocks(sh: Shape)
    requires OwnOk(sh)
    ensures sh.own.Keys == DirBlocks(sh) + FileBlocks(sh) && DirBlocks(sh) !! FileBlocks(sh)
    ensures forall x, y :: x in sh.chains && y in sh.chains && x != y ==> Elems(sh.chains[x]) !! Elems(sh.chains[y])
    ensures forall x :: x in sh.chains ==> Distinct(sh.chains[x])
  {
    forall h, b | h in sh.chains && b in sh.chains[h] ensures b in sh.own && sh.own[b] == h {
      assert ChainOwned(sh, h);
    }
    forall x | x in sh.chains ensures Distinct(sh.chains[x]) {
      assert ChainOwned(sh, x);
    }
  }

  /** Exact ownership holds on every mounted volume. */
  lemma ExactOwnership(g: Fs)
    requires Inv(g)
    ensures ExactlyOwned(g)
  {
    hide DirsOk, FilesOk, RefsOk, DepthOk, BitmapsOn, MarkedOn, ChainOwned, DirBlocks, FileBlocks, OwnOk, Elems,
      Distinct;
    OwnedBlocks(g.sh);
    InRangeMarks(g.blkCount, g.marked, g.sh);
  }

  lemma InRangeMarks(n: nat, marked: set<nat>, sh: Shape)
    requires MarksOk(n, marked, sh, {})
    ensures (set b | 0 <= b < n && b in marked) == Homes(n) + sh.own.Keys && Homes(n) !! sh.own.Keys
  {
    forall b | b in sh.own ensures b < n && b !in Homes(n) {
      assert Usable(b, n);
    }
  }

  /** No two entries lead to the same chain, every chain but the root's hangs from an entry, and every
      entry leads to a chain of blocks in use. */
  ghost predicate OneToOne(g: Fs)
    reads g`disk, g`marked, g`sh
  {
    var T := Dirs(g);
    && (forall e, f :: Points(T, e) && Points(T, f) && Target(T, e) == Target(T, f) ==> e == f)
    && (forall x :: x in g.sh.chains && x != ROOT ==>
         x in g.sh.up && Points(T, g.sh.up[x]) && Target(T, g.sh.up[x]) == x)
    && (forall e :: Points(T, e) ==> Target(T, e) in g.sh.chains && Target(T, e) in g.marked)
  }

  lemma OneEntryPerChain(g: Fs)
    requires Inv(g)
    ensures OneToOne(g)
  {
    hide DirsOk, FilesOk, DepthOk, BitmapsOn, MarkedOn, TreeOf, OwnOk, MarksOk;
    var T: Listings := Dirs(g);
    HeadsOwned(g.sh);
    FreshFacts(g, {}, Nothing);
    RefsHead(T, g.sh.chains.Keys, g.sh.up, Nothing);
    forall e | Points(T, e)
      ensures Target(T, e) in g.sh.chains && Target(T, e) in g.sh.up && g.sh.up[Target(T, e)] == e
    {
      assert ItemOk(T[e.dir][e.name], e, T.Keys, g.sh.chains.Keys, g.sh.up);
    }
    forall x | x in g.sh.chains && x != ROOT
      ensures x in g.sh.up && Points(T, g.sh.up[x]) && Target(T, g.sh.up[x]) == x
    {
      assert RefAt(T, g.sh.up, Nothing, x);
    }
  }

  // ----- runs -----

  /** Any sequence of namespace operations, whatever errors they end in, keeps a mounted volume
      well-formed, and is a run of the abstract file tree. */
  method Perform(g: Fs, ops: seq<Op>) returns (ghost states: seq<Space>)
    requires Inv(g) && forall i :: 0 <= i < |ops| && ops[i].WriteFileOp? ==> |ops[i].data| < LIMIT
    modifies g`disk, g`marked, g`sh, g`err, g`loadedBitmapBlk, g`buf, g`loadedDirBlk, g`currentDirBlk, g.bitmap
    ensures Inv(g) && FilesOk(g.disk, g.sh) && |states| == |ops| + 1
    ensures states[0] == old(SpaceOf(g)) && states[|ops|] == SpaceOf(g)
    ensures forall i :: 0 <= i <= |ops| ==> Sound(states[i])
    ensures old(g.err) != NoDev ==> g.err != NoDev && Trace(states, ops)
    ensures NoneOpen(g) ==> forall i :: 0 <= i <= |ops| ==> states[i].busy == {}
  {
    hide Holding, FilesOk, SpaceOf, Sound, Steps;
    FilesOkNow(g);
    var i := 0;
    states := [SpaceOf(g)];
    SoundVolume(g);
    if NoneOpen(g) { NobodyBusy(g); }
    while i < |ops|
      invariant i <= |ops| && Inv(g) && FilesOk(g.disk, g.sh) && |states| == i + 1
      invariant states[0] == old(SpaceOf(g)) && states[i] == SpaceOf(g)
      invariant forall j :: 0 <= j <= i ==> Sound(states[j]) && (NoneOpen(g) ==> states[j].busy == {})
      invariant old(g.err) != NoDev ==>
        g.err != NoDev && forall j :: 0 <= j < i ==> Steps(states[j], ops[j], states[j + 1])
    {
      Step(g, ops[i]);
      SoundVolume(g);
      if NoneOpen(g) { NobodyBusy(g); }
      states := states + [SpaceOf(g)];
      i := i + 1;
    }
  }

  lemma NoCost(s: Space)
    requires Sound(s) && Around(s) == map[]
    ensures s.cost == 0
  {
  }

  /** From a formatted drive on, every run leaves every block accounted for, every chain hanging
      from one entry, and tfs_get_used exact; and the volume is what the operations made of the
      empty root directory. */
  method FormatAndPerform(g: Fs, ops: seq<Op>) returns (used: nat, ghost states: seq<Space>)
    requires g.Geometry() && g.blkCount >= 2 && g.err != NoDev
    requires forall i :: 0 <= i < |ops| && ops[i].WriteFileOp? ==> |ops[i].data| < LIMIT
    modifies g`disk, g`marked, g`sh, g`err, g`loadedBitmapBlk, g`buf, g`loadedDirBlk, g`currentDirBlk
    modifies g`behind, g.bitmap
    ensures |states| == |ops| + 1 && FilesOk(g.disk, g.sh)
    ensures states[0] == Space(map[ROOT := map[]], map[], ROOT, None, states[0].free, 0, states[0].busy)
    ensures states[0].free + (g.blkCount + 4095) / 4096 + 1 == g.blkCount
    ensures states[|ops|] == SpaceOf(g).(err := states[|ops|].err)
    ensures NoneOpen(g) ==> forall i :: 0 <= i <= |ops| ==> states[i].busy == {}
    ensures Trace(states, ops) && forall i :: 0 <= i <= |ops| ==> Sound(states[i])
    ensures Inv(g) && ExactlyOwned(g) && OneToOne(g)
    ensures used == |set b | 0 <= b < g.blkCount && b in g.marked|
  {
    hide Holding, ExactlyOwned, OneToOne, FilesOk, TreeOf, FilesOf, Sound, Steps, Homes;
    FormatDrive(g);
    UsedAfterFormat(g.blkCount);
    HomesCount(g.blkCount);
    FilesOkNow(g);
    states := Perform(g, ops);
    NoCost(states[0]);
    ExactOwnership(g);
    used := GetUsed(g);
    ExactOwnership(g);
    OneEntryPerChain(g);
    UsedIsMarked(g.blkCount, g.marked);
  }
}
