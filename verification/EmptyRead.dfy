/** tfs_read_file on a file without blocks: the loop starts at block 0 and takes four bytes of the
    bitmap for a next pointer. */
module EmptyRead {
  import opened Layout
  import opened Volume
  import opened Chains
  import opened Directory
  import opened Shapes
  import opened Tree
  import opened Walks
  import opened Marks

  /** The first next word: the sum of the marks of the blocks 32 to 63. */
  lemma NextOfZero(disk: seq<Block>, marked: set<nat>)
    requires |disk| > 0 && BitmapsOn(disk, marked)
    ensures NextWord(disk[0]) == SumOfMarks(marked, 32, 32)
  {
    hide BitmapsOn, SumOfMarks;
    ByteOfMarks(disk, marked, 0, 4);
    ByteOfMarks(disk, marked, 0, 5);
    ByteOfMarks(disk, marked, 0, 6);
    ByteOfMarks(disk, marked, 0, 7);
    FourBytes(marked, 32);
  }

  /** Reading an empty file stops after block 0 if and only if none of the blocks 32 to 63 is in
      use. On a drive where they all are, it goes on to a number past the end of the drive. */
  lemma EmptyReadStops(disk: seq<Block>, marked: set<nat>)
    requires 0 < |disk| < LIMIT && BitmapsOn(disk, marked)
    ensures NextWord(disk[0]) == 0 <==> forall b :: 32 <= b < 64 ==> b !in marked
    ensures (forall b :: 32 <= b < 64 ==> b in marked) ==> NextWord(disk[0]) >= |disk|
  {
    hide BitmapsOn, SumOfMarks;
    NextOfZero(disk, marked);
    NoMarks(marked, 32, 32);
    AllMarks(marked, 32, 32);
    WordValues();
  }

  /** Reading an empty file, whatever is in use: from block 0 it goes on to the block that the marks
      of blocks 32 to 63 happen to name. If that block is in use by a file or a directory, the rest
      of its chain is read and the end is found; past the end of the drive it is an I/O error; only
      free blocks and later bitmap blocks leave it to what they hold. */
  lemma EmptyReadCases(disk: seq<Block>, marked: set<nat>, sh: Shape)
    requires 0 < |disk| && BitmapsOn(disk, marked) && Wf(disk, marked, sh, {}, Nothing)
    ensures var x := SumOfMarks(marked, 32, 32);
      && (x == 0 || x in sh.own ==> exists w :: WalkEnds(disk, w, 0) && LastNext(disk, w) == 0)
      && (x >= |disk| ==> WalkEnds(disk, [0], 0) && LastNext(disk, [0]) != 0)
      && (0 < x < |disk| && x !in sh.own ==> x !in marked || x % BITMAP_COUNT == 0)
  {
    hide OwnOk, DirsOk, FilesOk, RefsOk, DepthOk, TreeOf, NextWord, BitmapsOn, SumOfMarks;
    NextOfZero(disk, marked);
    var x := NextWord(disk[0]);
    if x in sh.own {
      var w := OwnedWalk(disk, sh, x);
    } else if x == 0 {
      assert WalkEnds(disk, [0], 0);
    }
  }

  /** From a block in use the walk follows the rest of its chain. */
  lemma OwnedWalk(disk: seq<Block>, sh: Shape, x: nat) returns (w: seq<nat>)
    requires |disk| > 0 && OwnOk(sh) && DirsOk(disk, sh) && FilesOk(disk, sh) && x in sh.own && x == NextWord(disk[0])
    ensures WalkEnds(disk, w, 0) && LastNext(disk, w) == 0
  {
    hide DirsOk, FilesOk, ChainOwned, Distinct;
    var c := sh.chains[sh.own[x]];
    var i :| 0 <= i < |c| && c[i] == x;
    OwnedLinks(disk, sh, sh.own[x]);
    w := [0] + c[i..];
    forall j | 0 < j < |w| ensures w[j] != 0 && w[j] == NextWord(disk[w[j - 1]]) {
      assert w[j] == c[i + j - 1];
      if j > 1 { assert w[j - 1] == c[i + j - 2]; }
    }
  }

  lemma OwnedLinks(disk: seq<Block>, sh: Shape, h: nat)
    requires DirsOk(disk, sh) && FilesOk(disk, sh) && h in sh.chains
    ensures forall i :: 0 <= i < |sh.chains[h]| ==>
      0 < sh.chains[h][i] < |disk| && NextWord(disk[sh.chains[h][i]]) == NextOf(sh.chains[h], i)
  {
    hide Index, Packed;
    var c := sh.chains[h];
    forall i | 0 <= i < |c| ensures 0 < c[i] < |disk| && NextWord(disk[c[i]]) == NextOf(c, i) {
      if h in sh.slots {
        assert DirAt(disk, c, ParentOf(sh.up, h), i);
      } else {
        assert DataAt(disk, c, i);
      }
    }
  }

  /** The walk from block 0, step by step: where it goes on, and where it goes wrong. */
  lemma EmptyReadSteps(disk: seq<Block>, marked: set<nat>, sh: Shape, w: seq<nat>)
    requires 0 < |disk| && BitmapsOn(disk, marked) && Wf(disk, marked, sh, {}, Nothing) && WalkEnds(disk, w, 0)
    ensures var x := SumOfMarks(marked, 32, 32);
      && (x == 0 ==> w == [0])
      && (x >= |disk| ==> w == [0] && LastNext(disk, w) != 0)
      && (0 < x < |disk| ==> |w| > 1 && w[1] == x)
      && (x == 0 || x in sh.own ==> LastNext(disk, w) == 0)
  {
    hide OwnOk, DirsOk, FilesOk, RefsOk, DepthOk, TreeOf, NextWord, BitmapsOn, SumOfMarks;
    NextOfZero(disk, marked);
    var x := NextWord(disk[0]);
    if x == 0 || x >= |disk| {
      assert WalkEnds(disk, [0], 0);
      OneWalk(disk, w, [0]);
    } else if x in sh.own {
      var v := OwnedWalk(disk, sh, x);
      OneWalk(disk, w, v);
    }
  }

  lemma RootInUse(disk: seq<Block>, marked: set<nat>, sh: Shape)
    requires Wf(disk, marked, sh, {}, Nothing)
    ensures ROOT in sh.own
  {
    hide DirsOk, FilesOk, DepthOk, MarksOk;
    assert ChainOwned(sh, ROOT);
  }

  /** With block 32 alone in use among the 32, the walk goes from block 0 to the root directory. */
  lemma FirstMarkAlone(disk: seq<Block>, marked: set<nat>, sh: Shape)
    requires 1 < |disk| && BitmapsOn(disk, marked) && Wf(disk, marked, sh, {}, Nothing)
    requires forall b :: 32 <= b < 64 ==> (b in marked <==> b == 32)
    ensures NextWord(disk[0]) == 1
    ensures exists w :: WalkEnds(disk, w, 0) && LastNext(disk, w) == 0 && |w| > 1 && w[1] == ROOT
  {
    hide OwnOk, DirsOk, FilesOk, RefsOk, DepthOk, TreeOf, NextWord, BitmapsOn, SumOfMarks;
    LoneMark(marked, 32, 32, 0);
    assert Pow2(0) == 1;
    assert ROOT in sh.own by { RootInUse(disk, marked, sh); }
    NextOfZero(disk, marked);
    EmptyReadCases(disk, marked, sh);
    var w :| WalkEnds(disk, w, 0) && LastNext(disk, w) == 0;
    EmptyReadSteps(disk, marked, sh, w);
  }

  /** What a free block holds is no part of the volume, and yet it decides how reading an empty file
      ends: well, with an I/O error, or never. */
  lemma StaleBlockDecides(disk: seq<Block>, marked: set<nat>, sh: Shape, next: nat, data: seq<bv8>)
    requires 0 < |disk| && BitmapsOn(disk, marked) && Wf(disk, marked, sh, {}, Nothing)
    requires var x := SumOfMarks(marked, 32, 32); 0 < x < |disk| && x !in marked
    ensures var x := SumOfMarks(marked, 32, 32); var disk' := disk[x := DataBlk(0, next, data)];
      && BitmapsOn(disk', marked) && Wf(disk', marked, sh, {}, Nothing) && TreeOf(disk', sh) == TreeOf(disk, sh)
      && (next == 0 ==> WalkEnds(disk', [0, x], 0) && LastNext(disk', [0, x]) == 0)
      && (next >= |disk| ==> WalkEnds(disk', [0, x], 0) && LastNext(disk', [0, x]) != 0)
      && (next == x ==> !exists w :: WalkEnds(disk', w, 0))
  {
    hide OwnOk, DirsOk, FilesOk, RefsOk, DepthOk, TreeOf, MarkedOn, SumOfMarks;
    NextOfZero(disk, marked);
    var x := NextWord(disk[0]);
    var disk' := disk[x := DataBlk(0, next, data)];
    FreeBlockFrame(disk, marked, sh, x, DataBlk(0, next, data));
    if next == x {
      var w := [0, x, x];
      assert Walk(disk', w) && w[1] == w[2];
      EndsUnlessRepeated(disk', 0);
    }
  }

  /** A free block may hold anything. */
  lemma FreeBlockFrame(disk: seq<Block>, marked: set<nat>, sh: Shape, x: nat, b: Block)
    requires BitmapsOn(disk, marked) && Wf(disk, marked, sh, {}, Nothing) && x < |disk| && x !in marked
    ensures x % BITMAP_COUNT != 0
    ensures var disk' := disk[x := b];
      BitmapsOn(disk', marked) && Wf(disk', marked, sh, {}, Nothing) && TreeOf(disk', sh) == TreeOf(disk, sh)
  {
    hide OwnOk, DirsOk, FilesOk, RefsOk, DepthOk, TreeOf, FilesOf;
    var disk' := disk[x := b];
    assert x in Homes(|disk|) || x % BITMAP_COUNT != 0;
    Frame(disk, disk', marked, marked, sh, {}, {}, Nothing);
    forall y ensures MarkedOn(disk', y) <==> MarkedOn(disk, y) {
    }
  }
}
