/** tfs_format, mounting, and tfs_get_used. */
module Format {
  import opened Layout
  import opened Bits
  import opened Shapes
  import opened Volume
  import opened Allocator
  import opened Chains
  import opened Directory
  import opened Tree
  import opened Links
  import opened Mounted

  // ----- the bitmap that tfs_format writes -----

  /** Bytes of a bitmap block in which only the first block (the bitmap block itself) is used. */
  ghost predicate SelfMark(bytes: seq<bv8>)
  {
    |bytes| == BLOCK_SIZE && forall r :: 0 <= r < BITMAP_COUNT ==> (Bit(bytes, r) <==> r == 0)
  }

  /** The same with everything from position len on marked as well. */
  ghost predicate SelfAndTail(bytes: seq<bv8>, len: nat)
  {
    |bytes| == BLOCK_SIZE && forall r :: 0 <= r < BITMAP_COUNT ==> (Bit(bytes, r) <==> r == 0 || r >= len)
  }

  lemma ClearedIsSelfMark(bytes: seq<bv8>)
    requires |bytes| == BLOCK_SIZE && bytes[0] == 1 && forall i :: 0 < i < BLOCK_SIZE ==> bytes[i] == 0
    ensures SelfMark(bytes)
  {
    forall r | 0 <= r < BITMAP_COUNT ensures Bit(bytes, r) <==> r == 0 {
      AllOnes(r % 8);
      ByteOne(r % 8);
    }
  }

  lemma ByteOne(k: nat)
    requires k < 8
    ensures BitOf(1, k) <==> k == 0
  {
    MaskValues();
  }

  /** memset, then marks the block itself. */
  method ClearBitmap(g: Fs)
    requires g.Geometry()
    modifies g.bitmap
    ensures SelfMark(g.bitmap[..])
  {
    forall i | 0 <= i < BLOCK_SIZE { g.bitmap[i] := 0; }
    g.bitmap[0] := 1;
    ClearedIsSelfMark(g.bitmap[..]);
  }

  /** Marks everything after the end of the disk in the last bitmap block. If the disk ends with its
      last bitmap block there is nothing to mark, and the byte behind the buffer is overwritten. */
  method MarkTail(g: Fs)
    requires g.Geometry() && SelfMark(g.bitmap[..])
    modifies g.bitmap, g`behind
    ensures SelfAndTail(g.bitmap[..], g.lastBitmapLen)
    ensures g.behind == if g.lastBitmapLen == BITMAP_COUNT then 0xff else old(g.behind)
  {
    hide SelfMark, SelfAndTail;
    ghost var before := g.bitmap[..];
    SelfMarkSize(before);
    var mask := (0xff as bv8) << (g.lastBitmapLen % 8);
    var offset := g.lastBitmapLen / 8;
    ghost var first := offset;
    if offset < BLOCK_SIZE {
      g.bitmap[offset] := g.bitmap[offset] | mask;
    } else {
      AllBits(g.behind, g.lastBitmapLen % 8);
      g.behind := g.behind | mask;
    }
    offset := offset + 1;
    while offset < BLOCK_SIZE
      invariant first < offset && (first < BLOCK_SIZE ==> offset <= BLOCK_SIZE)
      invariant g.behind == if first < BLOCK_SIZE then old(g.behind) else 0xff
      invariant forall i :: 0 <= i < first && i < BLOCK_SIZE ==> g.bitmap[i] == before[i]
      invariant first < BLOCK_SIZE ==> g.bitmap[first] == before[first] | mask
      invariant forall i :: first < i < offset && i < BLOCK_SIZE ==> g.bitmap[i] == 0xff
    {
      g.bitmap[offset] := 0xff;
      offset := offset + 1;
    }
    TailMarked(before, g.bitmap[..], g.lastBitmapLen);
  }

  lemma SelfMarkSize(bytes: seq<bv8>)
    requires SelfMark(bytes)
    ensures |bytes| == BLOCK_SIZE
  {
  }

  lemma AllBits(p: bv8, k: nat)
    requires k == 0
    ensures p | ((0xff as bv8) << k) == 0xff
  {
  }

  lemma TailMarked(before: seq<bv8>, bytes: seq<bv8>, len: nat)
    requires SelfMark(before) && |bytes| == BLOCK_SIZE && len <= BITMAP_COUNT
    requires forall i :: 0 <= i < len / 8 ==> bytes[i] == before[i]
    requires len < BITMAP_COUNT ==> bytes[len / 8] == before[len / 8] | ((0xff as bv8) << (len % 8))
    requires forall i :: len / 8 < i < BLOCK_SIZE ==> bytes[i] == 0xff
    ensures SelfAndTail(bytes, len)
  {
    forall r | 0 <= r < BITMAP_COUNT ensures Bit(bytes, r) <==> r == 0 || r >= len {
      if len < BITMAP_COUNT {
        TailBit(before, bytes, len, r);
      } else {
        assert bytes == before;
      }
    }
  }

  lemma TailBit(before: seq<bv8>, bytes: seq<bv8>, len: nat, r: nat)
    requires |before| == BLOCK_SIZE && |bytes| == BLOCK_SIZE && len < BITMAP_COUNT && r < BITMAP_COUNT
    requires Bit(before, r) <==> r == 0
    requires r / 8 < len / 8 ==> bytes[r / 8] == before[r / 8]
    requires r / 8 == len / 8 ==> bytes[r / 8] == before[r / 8] | ((0xff as bv8) << (len % 8))
    requires r / 8 > len / 8 ==> bytes[r / 8] == 0xff
    ensures Bit(bytes, r) <==> r == 0 || r >= len
  {
    HighMask(len % 8, r % 8);
    OrBits(before[r / 8], (0xff as bv8) << (len % 8), r % 8);
    AllOnes(r % 8);
  }

  /** The index that tfs_format uses for the end of the disk lies inside the bitmap block exactly
      if the number of blocks is not a multiple of 4096. */
  lemma TailIndexInBounds(n: nat)
    requires n > 0
    ensures ((n - 1) % BITMAP_COUNT + 1) / 8 < BLOCK_SIZE <==> n % BITMAP_COUNT != 0
  {
    LastBitmap(n);
  }

  // ----- tfs_format -----

  /** Bitmap block p as tfs_format writes it. */
  ghost predicate FormattedHome(blk: Block, p: nat, n: nat)
    requires n > 0
  {
    blk.Raw? && if p == Home(n - 1) then SelfAndTail(blk.bytes, (n - 1) % BITMAP_COUNT + 1) else SelfMark(blk.bytes)
  }

  lemma FormattedMark(disk: seq<Block>, n: nat, b: nat)
    requires 0 < n == |disk| && b < Top(n) && FormattedHome(disk[Home(b)], Home(b), n)
    ensures MarkedOn(disk, b) <==> b % BITMAP_COUNT == 0 || n <= b
  {
  }

  lemma FormattedMarks(disk: seq<Block>, n: nat)
    requires 0 < n == |disk|
    requires forall p :: 0 <= p < n && p % BITMAP_COUNT == 0 ==> FormattedHome(disk[p], p, n)
    ensures BitmapsOn(disk, Homes(n) + Tail(n))
  {
    forall p | 0 <= p < n && p % BITMAP_COUNT == 0 ensures IsBitmap(disk[p]) {
      assert FormattedHome(disk[p], p, n);
    }
    forall b: nat ensures MarkedOn(disk, b) <==> b in Homes(n) + Tail(n) {
      if b < Top(n) {
        HomeBelow(b, n);
        FormattedMark(disk, n, b);
      }
    }
  }

  lemma HomeBelow(b: nat, n: nat)
    requires n > 0 && b < Top(n)
    ensures Home(b) < n && Home(b) % BITMAP_COUNT == 0
    ensures b % BITMAP_COUNT == 0 ==> b < n
  {
  }

  /** The bitmap loop of tfs_format. */
  method WriteBitmaps(g: Fs)
    requires g.Geometry()
    modifies g`disk, g`marked, g`loadedBitmapBlk, g`behind, g.bitmap
    ensures g.behind == if g.blkCount % BITMAP_COUNT == 0 then 0xff else old(g.behind)
    ensures g.Coherent() && g.loadedBitmapBlk == 0
    ensures g.marked == Homes(g.blkCount) + Tail(g.blkCount)
    ensures SameContents(old(g.disk), g.disk)
  {
    TailIndexInBounds(g.blkCount);
    ClearBitmap(g);
    var pos := 0;
    var last := false;
    NextHome(0, g.blkCount);
    while true
      invariant g.Geometry() && SelfMark(g.bitmap[..]) && g.behind == old(g.behind)
      invariant pos % BITMAP_COUNT == 0 && pos <= g.lastBitmapBlk
      invariant forall p :: 0 <= p < pos && p % BITMAP_COUNT == 0 ==> FormattedHome(g.disk[p], p, g.blkCount)
      invariant SameContents(old(g.disk), g.disk)
      decreases g.lastBitmapBlk - pos
    {
      ghost var before := g.disk;
      if pos == g.lastBitmapBlk {
        last := true;
        MarkTail(g);
      }
      g.WriteBlock(pos, Raw(g.bitmap[..]));
      assert FormattedHome(g.disk[pos], pos, g.blkCount);
      if last {
        break;
      }
      NextHome(pos, g.blkCount);
      forall p | 0 <= p < pos + BITMAP_COUNT && p % BITMAP_COUNT == 0
        ensures p < g.blkCount && FormattedHome(g.disk[p], p, g.blkCount)
      {
        HomeGap(pos, p);
      }
      pos := pos + BITMAP_COUNT;
    }
    forall p | 0 <= p < g.blkCount && p % BITMAP_COUNT == 0
      ensures FormattedHome(g.disk[p], p, g.blkCount)
    {
      NextHome(p, g.blkCount);
    }
    FormattedMarks(g.disk, g.blkCount);
    g.marked := Homes(g.blkCount) + Tail(g.blkCount);
    LoadBitmap(g, 0);
  }

  /** The books of a freshly formatted volume: just the root directory in block 1. */
  ghost function EmptyShape(): Shape
  {
    Shape(map[ROOT := [ROOT]], map[ROOT := ROOT], map[ROOT := map[]], map[], map[ROOT := 0])
  }

  lemma EmptyVolume(disk: seq<Block>)
    requires |disk| >= 2 && disk[ROOT] == DirBlk(0, 0, 0, FreeItems())
    ensures Wf(disk, Homes(|disk|) + Tail(|disk|) + {ROOT}, EmptyShape(), {}, Nothing)
    ensures TreeOf(disk, EmptyShape()) == map[ROOT := map[]] && FilesOf(disk, EmptyShape()) == map[]
  {
    hide DirOk, Lists, Listing, Homes, Tail;
    NewDirOk(disk, ROOT, 0);
    assert TreeOf(disk, EmptyShape()) == map[ROOT := map[]];
  }

  lemma OthersLeft(a: seq<Block>, b: seq<Block>, c: seq<Block>)
    requires SameContents(a, b) && SameContents(b, c)
    ensures |c| == |a| && forall p :: 0 <= p < |a| && p % 4096 != 0 ==> c[p] == a[p]
  {
  }

  /** tfs_format. A drive of one block has no room for the root directory. On a drive that ends with
      its last bitmap block the byte behind the bitmap buffer is lost. */
  method FormatDrive(g: Fs)
    requires g.Geometry()
    modifies g`disk, g`marked, g`sh, g`err, g`loadedBitmapBlk, g`buf, g`currentDirBlk, g`loadedDirBlk
    modifies g`behind, g.bitmap
    ensures old(g.err) == NoDev ==> g.err == NoDev && g.disk == old(g.disk) && g.behind == old(g.behind)
    ensures old(g.err) != NoDev ==> g.behind == if g.blkCount % BITMAP_COUNT == 0 then 0xff else old(g.behind)
    ensures old(g.err) != NoDev ==> g.err == if g.blkCount == 1 then DiskFull else None
    ensures g.err == None ==> Inv(g) && g.currentDirBlk == ROOT && Dirs(g) == map[ROOT := map[]] && Files(g) == map[]
    ensures g.err == None ==> FreeBlocks(g) == set b | 0 <= b < g.blkCount && b % BITMAP_COUNT != 0 && b != ROOT
    // all other blocks keep what they held, and without a root directory nothing is mounted anew
    ensures |g.disk| == |old(g.disk)| && forall b :: 0 <= b < g.blkCount && b % 4096 != 0 && b != 1 ==>
      g.disk[b] == old(g.disk)[b]
    ensures g.err == DiskFull ==> g.Coherent() && FreeBlocks(g) == {} && g.currentDirBlk == old(g.currentDirBlk)
  {
    hide Wf, TreeOf, FilesOf, FilesOk, BitmapsOn, MarkedOn, Homes, Tail, EmptyShape, SelfMark, FormattedHome,
      DataChain, SameContents;
    if g.err == NoDev {
      return;
    }
    g.err := None;
    ghost var disk0 := g.disk;
    WriteBitmaps(g);
    ghost var disk1 := g.disk;
    FormattedFree(g);
    assert 0 in g.marked && (ROOT < g.blkCount ==> ROOT !in g.marked);
    var pos := AllocBlock(g);
    OthersLeft(disk0, disk1, g.disk);
    if g.err != None {
      FullMeansNoneFree(g);
      return;
    }
    assert pos == ROOT;
    g.buf := DirBlk(0, 0, 0, FreeItems());
    g.WriteBlock(pos, g.buf);
    g.currentDirBlk := ROOT;
    g.loadedDirBlk := 0;
    EmptyVolume(g.disk);
    EmptyShapeFields();
    g.sh := EmptyShape();
    EmptyFilesOk(g.disk);
  }

  /** There is a bitmap block for every 4096 blocks begun. */
  lemma {:induction false} HomesCount(n: nat)
    ensures |Homes(n)| == (n + 4095) / 4096
  {
    if n == 0 {
      assert Homes(0) == {};
    } else {
      HomesCount(n - 1);
      assert Homes(n) == Homes(n - 1) + if (n - 1) % 4096 == 0 then {n - 1} else {};
    }
  }

  /** Right after formatting, tfs_get_used counts the bitmap blocks and the root directory. */
  method FormatAndCount(g: Fs) returns (used: nat)
    requires g.Geometry() && g.blkCount >= 2 && g.err != NoDev
    modifies g`disk, g`marked, g`sh, g`err, g`loadedBitmapBlk, g`buf, g`currentDirBlk, g`loadedDirBlk
    modifies g`behind, g.bitmap
    ensures Inv(g) && used == (g.blkCount + 4095) / 4096 + 1
  {
    hide Holding, Homes, TreeOf, FilesOf, FilesOk;
    FormatDrive(g);
    HomesCount(g.blkCount);
    UsedAfterFormat(g.blkCount);
    used := GetUsed(g);
  }

  lemma UsedAfterFormat(n: nat)
    requires n >= 2
    ensures |Homes(n)| + 1 + |set b | 0 <= b < n && b % BITMAP_COUNT != 0 && b != ROOT| == n
  {
    CountComplement(Homes(n) + {ROOT}, n);
    CountMembers(Homes(n) + {ROOT}, n);
    assert (set b | 0 <= b < n && b !in Homes(n) + {ROOT}) == set b | 0 <= b < n && b % BITMAP_COUNT != 0 && b != ROOT;
    assert (set b | 0 <= b < n && b in Homes(n) + {ROOT}) == Homes(n) + {ROOT};
  }

  lemma FormattedFree(g: Fs)
    requires g.Geometry() && g.marked == Homes(g.blkCount) + Tail(g.blkCount)
    ensures forall b :: 0 <= b < g.blkCount ==> (b in g.marked <==> b % BITMAP_COUNT == 0)
  {
  }

  lemma EmptyShapeFields()
    ensures ROOT in EmptyShape().slots && ROOT in EmptyShape().chains
  {
  }

  lemma EmptyFilesOk(disk: seq<Block>)
    ensures FilesOk(disk, EmptyShape())
  {
  }

  /** Mounting a well-formed volume: the engine starts in the root directory with the volume as
      the drive holds it. */
  method Mount(n: nat, contents: seq<Block>, ghost marks: set<nat>, ghost shape: Shape) returns (g: Fs)
    requires 0 < n < LIMIT && |contents| == n && BitmapsOn(contents, marks) && Wf(contents, marks, shape, {}, Nothing)
    ensures fresh(g) && fresh(g.bitmap) && Inv(g) && g.err == None
    ensures g.blkCount == n && g.disk == contents && g.marked == marks && g.sh == shape && g.currentDirBlk == ROOT
    ensures |g.handles| == MAX_FDS && forall i :: 0 <= i < MAX_FDS ==> g.handles[i].usageCount == 0
    ensures fresh(g.handles) && forall i, j :: 0 <= i < j < MAX_FDS ==> g.handles[i] != g.handles[j]
  {
    hide OwnOk, DirsOk, FilesOk, MarksOk, DepthOk, TreeOf, MarkedOn;
    g := new Fs(n, contents, marks, shape);
    TreeKeys(contents, shape);
    DirsAreChains(contents, shape);
    assert ROOT in TreeOf(contents, shape);
  }

  // ----- tfs_get_used -----

  /** How many numbers from 0 up to, not including, n are in s. */
  ghost function CountBelow(s: set<nat>, n: nat): nat
  {
    if n == 0 then 0 else CountBelow(s, n - 1) + if n - 1 in s then 1 else 0
  }

  /** Counting the marked numbers is the same as leaving out the free ones. */
  lemma {:induction false} CountComplement(s: set<nat>, n: nat)
    ensures CountBelow(s, n) + |set b | 0 <= b < n && b !in s| == n
  {
    if n > 0 {
      CountComplement(s, n - 1);
      var t := set b | 0 <= b < n - 1 && b !in s;
      var u := set b | 0 <= b < n && b !in s;
      assert u == if n - 1 in s then t else t + {n - 1};
    } else {
      assert (set b | 0 <= b < n && b !in s) == {};
    }
  }

  /** The count is the number of members. */
  lemma {:induction false} CountMembers(s: set<nat>, n: nat)
    ensures CountBelow(s, n) == |set b | 0 <= b < n && b in s|
  {
    if n > 0 {
      CountMembers(s, n - 1);
      var t := set b | 0 <= b < n - 1 && b in s;
      assert (set b | 0 <= b < n && b in s) == if n - 1 in s then t + {n - 1} else t;
    } else {
      assert (set b | 0 <= b < n && b in s) == {};
    }
  }

  /** Used and free blocks together are all blocks. */
  lemma UsedIsMarked(n: nat, marked: set<nat>)
    ensures |set b | 0 <= b < n && b in marked| + |set b | 0 <= b < n && b !in marked| == n
  {
    CountMembers(marked, n);
    CountComplement(marked, n);
  }

  lemma {:induction false} CountStretch(s: set<nat>, lo: nat, hi: nat, all: bool)
    requires lo <= hi && forall b :: lo <= b < hi ==> (b in s <==> all)
    ensures CountBelow(s, hi) == CountBelow(s, lo) + if all then hi - lo else 0
  {
    if lo == hi {
    } else {
      CountStretch(s, lo, hi - 1, all);
    }
  }

  /** Counts the used bits of cached byte i. */
  method CountByte(g: Fs, i: nat, start: nat) returns (used: nat)
    requires g.Coherent() && g.loadedBitmapBlk != INVAL && i < BLOCK_SIZE
    requires start == CountBelow(g.marked, g.loadedBitmapBlk + 8 * i)
    ensures used == CountBelow(g.marked, g.loadedBitmapBlk + 8 * i + 8)
  {
    hide BitmapsOn, MarkedOn;
    ghost var at := g.loadedBitmapBlk + 8 * i;
    var p := g.bitmap[i];
    BitmapBytes(g.disk, g.marked, g.loadedBitmapBlk);
    assert p == g.disk[g.loadedBitmapBlk].bytes[i];
    used := start;
    if p > 0 {
      var mask: bv8 := 1;
      ghost var k := 0;
      while mask != 0
        invariant k <= 8 && mask == Mask(k) && used == CountBelow(g.marked, at + k)
        decreases 8 - k
      {
        MaskNonZero(k);
        MarkedByte(g.disk, g.marked, g.loadedBitmapBlk, i, k);
        assert BitOf(p, k) <==> p & mask != 0;
        if p & mask != 0 {
          used := used + 1;
        }
        mask := mask << 1;
        k := k + 1;
      }
      MaskNonZero(k);
    } else {
      forall b | at <= b < at + 8 ensures b !in g.marked {
        MarkedByte(g.disk, g.marked, g.loadedBitmapBlk, i, b - at);
        AllOnes(b - at);
      }
      CountStretch(g.marked, at, at + 8, false);
    }
  }

  /** tfs_get_used: the number of used blocks of the drive. */
  method GetUsed(g: Fs) returns (used: nat)
    requires Inv(g)
    modifies g`err, g`loadedBitmapBlk, g.bitmap
    ensures Inv(g)
    ensures old(g.err) == NoDev ==> g.err == NoDev && used == 0
    ensures old(g.err) != NoDev ==> g.err == None && used == g.blkCount - |FreeBlocks(g)|
  {
    hide Wf, BitmapsOn, MarkedOn, Mask, BitOf;
    if g.err == NoDev {
      return 0;
    }
    g.err := None;
    BitmapCoherent(g);
    var pos := 0;
    used := 0;
    NextHome(0, g.blkCount);
    while true
      invariant g.Geometry() && BitmapsOn(g.disk, g.marked) && g.err == None
      invariant pos % BITMAP_COUNT == 0 && pos <= g.lastBitmapBlk
      invariant used == CountBelow(g.marked, pos)
      decreases g.lastBitmapBlk - pos
    {
      LoadBitmap(g, pos);
      var i := 0;
      while i < BLOCK_SIZE
        invariant i <= BLOCK_SIZE && g.Coherent() && g.loadedBitmapBlk == pos && g.err == None
        invariant used == CountBelow(g.marked, pos + 8 * i)
      {
        used := CountByte(g, i, used);
        i := i + 1;
      }
      if pos == g.lastBitmapBlk {
        LoadBitmap(g, 0);
        UsedCount(g);
        return used - (BITMAP_COUNT - g.lastBitmapLen);
      }
      NextHome(pos, g.blkCount);
      pos := pos + BITMAP_COUNT;
    }
  }

  lemma BitmapCoherent(g: Fs)
    requires g.Coherent()
    ensures g.Geometry() && BitmapsOn(g.disk, g.marked)
  {
  }

  /** The bits after the end of the disk are set, so they can simply be subtracted. */
  lemma UsedCount(g: Fs)
    requires Inv(g)
    ensures CountBelow(g.marked, g.lastBitmapBlk + BITMAP_COUNT) ==
      g.blkCount - |FreeBlocks(g)| + BITMAP_COUNT - g.lastBitmapLen
    ensures g.lastBitmapLen <= BITMAP_COUNT && |FreeBlocks(g)| <= g.blkCount
  {
    hide OwnOk, DirsOk, FilesOk, RefsOk, DepthOk, TreeOf, BitmapsOn, MarkedOn;
    var n := g.blkCount;
    LastBitmap(n);
    TailIsMarked(n, g.marked, g.sh, {});
    CountStretch(g.marked, n, Top(n), true);
    CountComplement(g.marked, n);
  }

  lemma LastBitmap(n: nat)
    requires n > 0
    ensures n == Home(n - 1) + (n - 1) % BITMAP_COUNT + 1 && n <= Top(n)
    ensures (n - 1) % BITMAP_COUNT + 1 <= BITMAP_COUNT
  {
  }

  lemma TailIsMarked(n: nat, marked: set<nat>, sh: Shape, pend: set<nat>)
    requires MarksOk(n, marked, sh, pend)
    ensures forall b :: n <= b < Top(n) ==> b in marked
  {
    forall b | n <= b < Top(n) ensures b in marked {
      assert b in Tail(n);
    }
  }
}
