/** The engine's global state: the drive, the bitmap cache, the block buffer and the handle table. */
module Volume {
  import opened Layout
  import opened Bits
  import opened Shapes

  /** GET_BITMAP_BLK: the bitmap block that describes block b. */
  function Home(b: nat): nat { b - b % BITMAP_COUNT }

  /** One past the last block number that has a bit in some bitmap block. */
  function Top(n: nat): nat
    requires n > 0
  {
    Home(n - 1) + BITMAP_COUNT
  }

  lemma HomeOf(p: nat, r: nat)
    requires p % BITMAP_COUNT == 0 && r < BITMAP_COUNT
    ensures Home(p + r) == p && (p + r) % BITMAP_COUNT == r
  {
  }

  ghost predicate IsBitmap(blk: Block) { blk.Raw? && |blk.bytes| == BLOCK_SIZE }

  /** Block number b is marked as used in the bitmap on disk. */
  ghost predicate MarkedOn(disk: seq<Block>, b: nat)
  {
    && |disk| > 0 && b < Top(|disk|)
    && IsBitmap(disk[Home(b)])
    && Bit(disk[Home(b)].bytes, b % BITMAP_COUNT)
  }

  /** Every 4096th block is a bitmap block, and together they mark exactly the set `marked`. */
  ghost predicate BitmapsOn(disk: seq<Block>, marked: set<nat>)
  {
    && (forall p :: 0 <= p < |disk| && p % BITMAP_COUNT == 0 ==> IsBitmap(disk[p]))
    && (forall b {:trigger MarkedOn(disk, b)} :: b in marked <==> MarkedOn(disk, b))
  }

  /** b can carry a directory or data block: it is on the disk and not a bitmap block. */
  ghost predicate Usable(b: nat, n: nat) { 0 < b < n && b % BITMAP_COUNT != 0 }

  /** Blocks that can still be handed out on a drive of n blocks. */
  ghost function FreeSet(n: nat, marked: set<nat>): set<nat> { set b | 0 <= b < n && b !in marked }

  lemma UsableNonZero(b: nat, n: nat)
    requires Usable(b, n)
    ensures 0 < b < n
  {
  }

  /** The two disks agree on everything that is not a bitmap block. */
  ghost predicate SameContents(a: seq<Block>, b: seq<Block>)
  {
    |a| == |b| && forall p :: 0 <= p < |a| && Usable(p, |a|) ==> b[p] == a[p]
  }

  /** The two disks agree outside the bitmap blocks and the blocks in s. */
  ghost predicate SameOutside(a: seq<Block>, b: seq<Block>, s: set<nat>)
  {
    |a| == |b| && forall p :: 0 <= p < |a| && Usable(p, |a|) && p !in s ==> b[p] == a[p]
  }

  lemma OutsideStep(a: seq<Block>, b: seq<Block>, m: seq<Block>, s: set<nat>, p: nat, blk: Block)
    requires SameOutside(a, b, s) && SameContents(b, m) && p < |m|
    ensures SameOutside(a, m[p := blk], s + {p})
  {
  }

  /** A uint8_t counter. */
  type Count = n: nat | n < 256

  /** TFS_FILEHANDLE. `dirItem` is a slot of the directory block `dirBlk`. */
  class Handle {
    var usageCount: Count
    var dirBlk: nat
    var dirItem: nat
    var size: nat
    var firstBlk: nat
    var currBlk: nat
    var currPos: nat

    constructor ()
      ensures usageCount == 0 && dirBlk == 0
    {
      usageCount, dirBlk, dirItem, size, firstBlk, currBlk, currPos := 0, 0, 0, 0, 0, 0, 0;
    }
  }

  class Fs {
    const blkCount: nat
    const bitmap: array<bv8>        // bitmap_blk
    const handles: seq<Handle>
    var disk: seq<Block>
    var err: Error                  // tfs_last_error
    var behind: bv8                 // the byte in memory after bitmap_blk
    var lastBitmapBlk: nat
    var lastBitmapLen: nat
    var loadedBitmapBlk: nat
    var currentDirBlk: nat
    var loadedDirBlk: nat
    var buf: Block                  // blk_buf
    ghost var marked: set<nat>      // meaning of the bitmap blocks
    ghost var sh: Shape             // meaning of the other blocks

    ghost predicate Geometry()
      reads this`disk, this`lastBitmapBlk, this`lastBitmapLen
    {
      && 0 < blkCount < LIMIT && |disk| == blkCount
      && bitmap.Length == BLOCK_SIZE
      && lastBitmapBlk == Home(blkCount - 1)
      && lastBitmapLen == (blkCount - 1) % BITMAP_COUNT + 1
    }

    /** No block of the drive is free. */
    ghost predicate Full()
      reads this`marked
    {
      forall b :: 0 <= b < blkCount ==> b in marked
    }

    /** The bitmap blocks themselves are marked as used, so they are never handed out. */
    ghost predicate HomesMarked()
      reads this`marked
    {
      forall p :: 0 <= p < blkCount && p % BITMAP_COUNT == 0 ==> p in marked
    }

    /** The bitmap on disk means `marked`; the cached bitmap block equals its disk block; and
        the "disk full" marker is set only while no block is free. */
    ghost predicate Coherent()
      reads this`disk, this`marked, this`lastBitmapBlk, this`lastBitmapLen, this`loadedBitmapBlk, bitmap
    {
      && Geometry()
      && BitmapsOn(disk, marked)
      && if loadedBitmapBlk == INVAL then Full()
         else loadedBitmapBlk < blkCount && loadedBitmapBlk % BITMAP_COUNT == 0
              && bitmap[..] == disk[loadedBitmapBlk].bytes
    }

    /** tfs_init on a drive of n blocks whose block 0 can be read as a bitmap block. The ghost
        arguments say what the drive's contents mean. */
    constructor (n: nat, contents: seq<Block>, ghost marks: set<nat>, ghost shape: Shape)
      requires 0 < n < LIMIT && |contents| == n && IsBitmap(contents[0])
      ensures Geometry() && blkCount == n && disk == contents && marked == marks && sh == shape
      ensures err == None && currentDirBlk == ROOT && loadedBitmapBlk == 0 && bitmap[..] == disk[0].bytes
      ensures |handles| == 32 && forall i :: 0 <= i < 32 ==>
          handles[i].usageCount == 0 && handles[i].dirBlk == 0
      ensures forall i, j :: 0 <= i < j < MAX_FDS ==> handles[i] != handles[j]
      ensures fresh(bitmap) && fresh(handles)
    {
      blkCount, disk, marked, sh, err := n, contents, marks, shape, None;
      var hs: seq<Handle> := [];
      while |hs| < MAX_FDS
        invariant |hs| <= MAX_FDS && fresh(hs)
        invariant forall i :: 0 <= i < |hs| ==> hs[i].usageCount == 0 && hs[i].dirBlk == 0
        invariant forall i, j :: 0 <= i < j < |hs| ==> hs[i] != hs[j]
      {
        var h := new Handle();
        hs := hs + [h];
      }
      handles := hs;
      lastBitmapBlk := Home(n - 1);
      lastBitmapLen := (n - 1) % BITMAP_COUNT + 1;
      currentDirBlk, loadedDirBlk := ROOT, 0;
      buf := contents[0];
      // load_bitmap(TFS_FIRST_BITMAP_BLK)
      var bytes := contents[0].bytes;
      var bm := new bv8[BLOCK_SIZE](i requires 0 <= i < |bytes| => bytes[i]);
      assert bm[..] == bytes;
      bitmap, loadedBitmapBlk := bm, 0;
    }

    method ReadBlock(p: nat) returns (blk: Block)
      requires p < |disk|
      ensures blk == disk[p]
    {
      blk := disk[p];
    }

    /** drive_write_block. Only writing a bitmap block can change what is marked. */
    method WriteBlock(p: nat, blk: Block)
      requires p < |disk|
      modifies `disk
      ensures disk == old(disk)[p := blk]
      ensures old(Coherent()) && Usable(p, blkCount) ==> Coherent()
    {
      disk := disk[p := blk];
      if old(Coherent()) && Usable(p, blkCount) {
        forall b ensures MarkedOn(disk, b) <==> MarkedOn(old(disk), b) {
        }
      }
    }
  }

  lemma FreshUsable(g: Fs)
    requires g.HomesMarked()
    ensures forall b :: 0 <= b < g.blkCount && b !in g.marked ==> Usable(b, g.blkCount)
  {
    forall b | 0 <= b < g.blkCount && b !in g.marked ensures Usable(b, g.blkCount) {
      assert 0 % BITMAP_COUNT == 0;
    }
  }
}
