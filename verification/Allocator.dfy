/** The bitmap allocator: load_bitmap, alloc_block and free_block. */
module Allocator {
  import opened Layout
  import opened Bits
  import opened Volume

  /** Reads bitmap block pos into the cache. */
  method LoadBitmap(g: Fs, pos: nat)
    requires g.Geometry() && BitmapsOn(g.disk, g.marked)
    requires pos < g.blkCount && pos % BITMAP_COUNT == 0
    modifies g`loadedBitmapBlk, g.bitmap
    ensures g.Coherent() && g.loadedBitmapBlk == pos
  {
    var bytes := g.disk[pos].bytes;
    forall i | 0 <= i < BLOCK_SIZE { g.bitmap[i] := bytes[i]; }
    g.loadedBitmapBlk := pos;
    assert g.bitmap[..] == bytes;
  }

  /** Finds the lowest clear bit of a byte by shifting a mask until it drops out. */
  method FirstClearBit(p: bv8) returns (k: nat, mask: bv8)
    ensures k <= 8 && mask == Mask(k)
    ensures forall j :: 0 <= j < k ==> BitOf(p, j)
    ensures if k < 8 then !BitOf(p, k) else p == 0xff
  {
    mask, k := 1, 0;
    while mask != 0
      invariant k <= 8 && mask == Mask(k)
      invariant forall j :: 0 <= j < k ==> BitOf(p, j)
      decreases 8 - k
    {
      MaskNonZero(k);
      if p & mask == 0 {
        return;
      }
      mask := mask << 1;
      k := k + 1;
    }
    MaskNonZero(k);
    FullByte(p);
  }

  /** Bit j of byte i of bitmap block p is the mark of block p + 8 i + j. */
  lemma MarkedByte(disk: seq<Block>, marked: set<nat>, p: nat, i: nat, j: nat)
    requires BitmapsOn(disk, marked) && p < |disk| && p % BITMAP_COUNT == 0
    requires i < BLOCK_SIZE && j < 8
    ensures p + 8 * i + j in marked <==> BitOf(disk[p].bytes[i], j)
  {
    hide Home, Top, Bit, BitOf;
    var b := p + 8 * i + j;
    HomeOf(p, 8 * i + j);
    BelowTop(p, 8 * i + j, |disk|);
    assert IsBitmap(disk[p]);
    BitAt(disk[p].bytes, i, j);
    assert b in marked <==> MarkedOn(disk, b);
  }

  lemma BelowTop(p: nat, r: nat, n: nat)
    requires p % BITMAP_COUNT == 0 && r < BITMAP_COUNT && p < n
    ensures p + r < Top(n)
  {
  }

  /** Searches the cached bitmap block for its first free bit. A free bit past the end of the
      disk counts as "none": every later bit of the block is past the end too. */
  method ScanBitmap(g: Fs, pos: nat) returns (found: bool, i: nat, block: nat, k: nat, mask: bv8)
    requires g.Coherent() && pos == g.loadedBitmapBlk != INVAL
    ensures found ==> i < BLOCK_SIZE && k < 8 && block == pos + 8 * i + k < g.blkCount
    ensures found ==> block !in g.marked && mask == Mask(k)
    ensures found ==> forall b :: pos <= b < block ==> b in g.marked
    ensures !found ==> forall b :: pos <= b < pos + BITMAP_COUNT && b < g.blkCount ==> b in g.marked
  {
    i, block, mask, k := 0, pos, 0, 0;
    while i < BLOCK_SIZE
      invariant i <= BLOCK_SIZE && block == pos + 8 * i
      invariant forall b :: pos <= b < block && b < g.blkCount ==> b in g.marked
    {
      var p := g.bitmap[i];
      assert p == g.disk[pos].bytes[i];
      if p != 0xff {
        k, mask := FirstClearBit(p);
        forall b | block <= b < block + k ensures b in g.marked {
          MarkedByte(g.disk, g.marked, pos, i, b - block);
        }
        MarkedByte(g.disk, g.marked, pos, i, k);
        block := block + k;
        return block < g.blkCount, i, block, k, mask;
      }
      forall b | block <= b < block + 8 ensures b in g.marked {
        AllOnes(b - block);
        MarkedByte(g.disk, g.marked, pos, i, b - block);
      }
      i, block := i + 1, block + 8;
    }
    return false, i, block, k, mask;
  }

  lemma MarkAfterWrite(disk: seq<Block>, marked: set<nat>, p: nat, bytes: seq<bv8>, b: nat)
    requires BitmapsOn(disk, marked) && p < |disk| && p % BITMAP_COUNT == 0
    requires |bytes| == BLOCK_SIZE
    ensures MarkedOn(disk[p := Raw(bytes)], b) <==>
      if Home(b) == p then Bit(bytes, b % BITMAP_COUNT) else b in marked
  {
    if Home(b) == p {
      assert b < Top(|disk|);
    } else {
      assert b in marked <==> MarkedOn(disk, b);
    }
  }

  lemma SameBit(p: nat, r: nat, b: nat)
    requires p % BITMAP_COUNT == 0 && r < BITMAP_COUNT
    ensures b == p + r <==> Home(b) == p && b % BITMAP_COUNT == r
  {
  }

  /** Rewriting bitmap block p with one byte changed at one bit changes exactly that mark. */
  lemma FlipMark(disk: seq<Block>, marked: set<nat>, p: nat, i: nat, k: nat, byte: bv8, on: bool)
    requires BitmapsOn(disk, marked) && p < |disk| && p % BITMAP_COUNT == 0
    requires i < BLOCK_SIZE && k < 8
    requires forall j :: 0 <= j < 8 ==>
      (BitOf(byte, j) <==> if j == k then on else BitOf(disk[p].bytes[i], j))
    ensures var m := p + 8 * i + k;
      BitmapsOn(disk[p := Raw(disk[p].bytes[i := byte])], if on then marked + {m} else marked - {m})
  {
    hide MarkedOn, Bit, BitOf, Home;
    var bytes := disk[p].bytes[i := byte];
    var disk', m := disk[p := Raw(bytes)], p + 8 * i + k;
    var marked' := if on then marked + {m} else marked - {m};
    forall q | 0 <= q < |disk| && q % BITMAP_COUNT == 0 ensures IsBitmap(disk'[q]) {
      assert IsBitmap(disk[q]) && IsBitmap(disk[p]);
    }
    forall b: nat
      ensures b in marked' <==> MarkedOn(disk', b)
    {
      FlippedMark(disk, marked, p, i, k, byte, on, b);
    }
  }

  lemma FlippedMark(disk: seq<Block>, marked: set<nat>, p: nat, i: nat, k: nat, byte: bv8, on: bool, b: nat)
    requires BitmapsOn(disk, marked) && p < |disk| && p % BITMAP_COUNT == 0
    requires i < BLOCK_SIZE && k < 8
    requires forall j :: 0 <= j < 8 ==>
      (BitOf(byte, j) <==> if j == k then on else BitOf(disk[p].bytes[i], j))
    ensures MarkedOn(disk[p := Raw(disk[p].bytes[i := byte])], b) <==> if b == p + 8 * i + k then on else b in marked
  {
    hide MarkedOn, Bit, BitOf, Home, BitmapsOn;
    BitmapBytes(disk, marked, p);
    var bytes := disk[p].bytes;
    SameBit(p, 8 * i + k, b);
    MarkAfterWrite(disk, marked, p, bytes[i := byte], b);
    FlippedBit(bytes, i, k, byte, on, b % BITMAP_COUNT);
    MarkAfterWrite(disk, marked, p, bytes, b);
    assert disk[p := Raw(bytes)] == disk;
    assert b in marked <==> MarkedOn(disk, b) by { MarkedMeans(disk, marked, b); }
  }

  lemma BitmapBytes(disk: seq<Block>, marked: set<nat>, p: nat)
    requires BitmapsOn(disk, marked) && p < |disk| && p % BITMAP_COUNT == 0
    ensures IsBitmap(disk[p])
  {
  }

  lemma MarkedMeans(disk: seq<Block>, marked: set<nat>, b: nat)
    requires BitmapsOn(disk, marked)
    ensures b in marked <==> MarkedOn(disk, b)
  {
    hide MarkedOn;
  }

  lemma FlippedBit(bytes: seq<bv8>, i: nat, k: nat, byte: bv8, on: bool, r: nat)
    requires |bytes| == BLOCK_SIZE && i < BLOCK_SIZE && k < 8 && r < BITMAP_COUNT
    requires forall j :: 0 <= j < 8 ==> (BitOf(byte, j) <==> if j == k then on else BitOf(bytes[i], j))
    ensures Bit(bytes[i := byte], r) <==> if r == 8 * i + k then on else Bit(bytes, r)
  {
    BitAt(bytes, r / 8, r % 8);
    BitAt(bytes[i := byte], r / 8, r % 8);
  }

  /** Writes the cached bitmap block after byte i changed at bit k. */
  method StoreMark(g: Fs, i: nat, k: nat, byte: bv8, ghost on: bool)
    requires g.Coherent() && g.loadedBitmapBlk != INVAL && i < BLOCK_SIZE && k < 8
    requires forall j :: 0 <= j < 8 ==> (BitOf(byte, j) <==> if j == k then on else BitOf(g.bitmap[i], j))
    modifies g`disk, g`marked, g.bitmap
    ensures g.Coherent()
    ensures SameContents(old(g.disk), g.disk)
    ensures var m := g.loadedBitmapBlk + 8 * i + k;
      g.marked == if on then old(g.marked) + {m} else old(g.marked) - {m}
  {
    ghost var m := g.loadedBitmapBlk + 8 * i + k;
    assert g.bitmap[i] == g.disk[g.loadedBitmapBlk].bytes[i];
    FlipMark(g.disk, g.marked, g.loadedBitmapBlk, i, k, byte, on);
    g.bitmap[i] := byte;
    assert g.bitmap[..] == old(g.bitmap[..])[i := byte];
    g.WriteBlock(g.loadedBitmapBlk, Raw(g.bitmap[..]));
    g.marked := if on then g.marked + {m} else g.marked - {m};
  }

  /** Progress of the circular scan that began at bitmap block `start` and now stands at `pos`. */
  datatype Scan = Scan(n: nat, last: nat, start: nat, pos: nat, wrapped: bool)
  {
    ghost predicate Valid()
    {
      && 0 < n && last == Home(n - 1)
      && start % BITMAP_COUNT == 0 && pos % BITMAP_COUNT == 0 && start <= last && pos <= last
      && if wrapped then pos < start else start <= pos
    }

    /** Bitmap block h lies in the circular stretch from start up to, not including, pos. */
    ghost predicate Passed(h: nat)
    {
      if wrapped then h >= start || h < pos else start <= h < pos
    }

    /** No block described by a passed bitmap block is free. */
    ghost predicate NoneFree(marked: set<nat>)
    {
      forall b :: 0 <= b < n && Passed(Home(b)) ==> b in marked
    }

    /** The bitmap blocks visited so far are those passed and the current one, each once. */
    ghost predicate Visited(visits: seq<nat>)
    {
      && (forall x :: 0 <= x < |visits| ==> visits[x] == pos || Passed(visits[x]))
      && EachOnce(visits, n)
    }

    /** The step of the scan: around to block 0 after the last bitmap block. */
    function Next(): Scan
    {
      if pos == last then this.(pos := 0, wrapped := true) else this.(pos := pos + BITMAP_COUNT)
    }

    ghost function Left(): nat
      requires Valid()
    {
      if wrapped then start - pos else last - pos + start + 1
    }
  }

  /** The listed block numbers are bitmap blocks of an n-block disk, without repetition. */
  ghost predicate EachOnce(visits: seq<nat>, n: nat)
  {
    && (forall x :: 0 <= x < |visits| ==> visits[x] % BITMAP_COUNT == 0 && visits[x] < n)
    && (forall x, y :: 0 <= x < y < |visits| ==> visits[x] != visits[y])
  }

  lemma NextHome(p: nat, n: nat)
    requires 0 < n && p < n && p % BITMAP_COUNT == 0
    ensures p <= Home(n - 1)
    ensures p < Home(n - 1) ==> p + BITMAP_COUNT <= Home(n - 1) && (p + BITMAP_COUNT) % BITMAP_COUNT == 0
  {
  }

  lemma ScanStep(s: Scan, marked: set<nat>)
    requires s.Valid() && s.NoneFree(marked)
    requires forall b :: s.pos <= b < s.pos + BITMAP_COUNT && b < s.n ==> b in marked
    ensures s.Next().pos == s.start ==> forall b :: 0 <= b < s.n ==> b in marked
    ensures s.Next().pos != s.start ==> s.Next().Valid() && s.Next().NoneFree(marked)
    ensures s.Next().pos != s.start ==> s.Next().Left() < s.Left() && s.Next().pos < s.n
  {
    var t := s.Next();
    NextHome(s.pos, s.n);
    forall b | 0 <= b < s.n
      ensures s.Passed(Home(b)) || Home(b) == s.pos ==> b in marked
      ensures Home(b) <= Home(s.n - 1)
      ensures Home(b) > s.pos ==> Home(b) >= s.pos + BITMAP_COUNT
    {
      NextHome(Home(b), s.n);
      HomeGap(s.pos, Home(b));
    }
    if t.wrapped && s.wrapped {
      HomeGap(s.pos, s.start);
    }
  }

  /** Going round the disk from `start`, every block before `block` is marked. */
  ghost predicate FirstFrom(start: nat, block: nat, n: nat, marked: set<nat>)
  {
    forall b :: 0 <= b < n && (if start <= block then start <= b < block else b >= start || b < block) ==> b in marked
  }

  lemma FoundFirst(s: Scan, marked: set<nat>, block: nat)
    requires s.Valid() && s.NoneFree(marked) && s.pos <= block < s.pos + BITMAP_COUNT && block < s.n
    requires forall b :: s.pos <= b < block ==> b in marked
    ensures FirstFrom(s.start, block, s.n, marked)
  {
    hide Home;
    forall b | 0 <= b < s.n && (if s.start <= block then s.start <= b < block else b >= s.start || b < block)
      ensures b in marked
    {
      HomeBounds(b);
      HomeGap(s.pos, Home(b));
      HomeGap(Home(b), s.pos);
      HomeGap(s.pos, s.start);
      HomeGap(Home(b), s.start);
      if Home(b) != s.pos {
        assert s.Passed(Home(b));
      }
    }
  }

  lemma HomeBounds(b: nat)
    ensures Home(b) % BITMAP_COUNT == 0 && Home(b) <= b < Home(b) + BITMAP_COUNT
  {
  }

  lemma HomeGap(p: nat, q: nat)
    requires p % BITMAP_COUNT == 0 && q % BITMAP_COUNT == 0
    ensures p < q ==> p + BITMAP_COUNT <= q
  {
  }

  lemma VisitStep(s: Scan, visits: seq<nat>)
    requires s.Valid() && s.Visited(visits)
    requires s.Next().Valid() && s.Next().pos != s.start
    ensures s.Next().Visited(visits + [s.Next().pos])
  {
  }

  /** Marks the block of cached byte i, bit k. */
  method TakeBit(g: Fs, i: nat, k: nat, mask: bv8)
    requires g.Coherent() && g.loadedBitmapBlk != INVAL && i < BLOCK_SIZE && k < 8 && mask == Mask(k)
    modifies g`disk, g`marked, g.bitmap
    ensures g.Coherent() && SameContents(old(g.disk), g.disk)
    ensures g.marked == old(g.marked) + {g.loadedBitmapBlk + 8 * i + k}
  {
    forall j | 0 <= j < 8
      ensures BitOf(g.bitmap[i] | mask, j) <==> if j == k then true else BitOf(g.bitmap[i], j)
    {
      SetBit(g.bitmap[i], k, j);
    }
    StoreMark(g, i, k, g.bitmap[i] | mask, true);
  }

  /** Scans the bitmap blocks circularly from the cached one until one has a free bit; `visits`
      lists them in scan order. */
  method SearchBitmaps(g: Fs)
      returns (found: bool, i: nat, block: nat, k: nat, mask: bv8, ghost visits: seq<nat>)
    requires g.Coherent() && g.loadedBitmapBlk != INVAL
    modifies g`loadedBitmapBlk, g.bitmap
    ensures g.Coherent() && g.loadedBitmapBlk != INVAL
    ensures found ==> i < BLOCK_SIZE && k < 8 && mask == Mask(k)
    ensures found ==> block == g.loadedBitmapBlk + 8 * i + k < g.blkCount && block !in g.marked
    ensures found ==> FirstFrom(old(g.loadedBitmapBlk), block, g.blkCount, g.marked)
    ensures !found ==> g.Full()
    ensures forall x :: 0 <= x < |visits| ==> visits[x] % 4096 == 0 && visits[x] < g.blkCount
    ensures forall x, y :: 0 <= x < y < |visits| ==> visits[x] != visits[y]
  {
    hide MarkedOn, Mask, FirstFrom, BitmapsOn;
    var start, pos := g.loadedBitmapBlk, g.loadedBitmapBlk;
    ghost var s := Scan(g.blkCount, g.lastBitmapBlk, start, pos, false);
    visits := [pos];
    NextHome(pos, g.blkCount);
    while true
      invariant g.Coherent() && pos == g.loadedBitmapBlk != INVAL
      invariant s.n == g.blkCount && s.last == g.lastBitmapBlk && s.start == start && s.pos == pos
      invariant s.Valid() && s.NoneFree(g.marked) && s.Visited(visits)
      decreases s.Left()
    {
      found, i, block, k, mask := ScanBitmap(g, pos);
      if found {
        FoundFirst(s, g.marked, block);
        return;
      }
      ScanStep(s, g.marked);
      if pos == g.lastBitmapBlk {
        pos := 0;
      } else {
        pos := pos + BITMAP_COUNT;
      }
      if pos == start {
        return;
      }
      LoadBitmap(g, pos);
      VisitStep(s, visits);
      visits := visits + [pos];
      s := s.Next();
    }
  }

  /** Takes the first free block, going round from the cached bitmap block; or reports DISK_FULL
      and sets the "full" marker if there is none. */
  method AllocBlock(g: Fs) returns (block: nat)
    requires g.Coherent() && g.err == None
    modifies g`disk, g`marked, g`err, g`loadedBitmapBlk, g.bitmap
    ensures g.Coherent() && SameContents(old(g.disk), g.disk)
    ensures g.err == if old(g.Full()) then DiskFull else None
    ensures g.err == None ==> block < g.blkCount && block !in old(g.marked)
    ensures g.err == None ==> g.marked == old(g.marked) + {block}
    // no block is free from the bitmap block loaded so far up to this one, going round the drive
    ensures g.err == None ==> var start := old(g.loadedBitmapBlk);
      forall b :: 0 <= b < g.blkCount && (if start <= block then start <= b < block else b >= start || b < block) ==>
        b in old(g.marked)
    ensures g.err == None ==> g.loadedBitmapBlk == block - block % 4096
    ensures g.err == DiskFull ==> block == 0 && g.marked == old(g.marked) && g.disk == old(g.disk)
    ensures g.err == DiskFull ==> g.loadedBitmapBlk == INVAL
  {
    if g.loadedBitmapBlk == INVAL {
      g.err := DiskFull;
      return 0;
    }
    var found, i, k, mask;
    ghost var visits;
    found, i, block, k, mask, visits := SearchBitmaps(g);
    if found {
      TakeBit(g, i, k, mask);
    } else {
      g.loadedBitmapBlk := INVAL;
      g.err := DiskFull;
      block := 0;
    }
  }

  lemma PlaceOf(pos: nat, n: nat)
    requires pos < n
    ensures Home(pos) < n && Home(pos) % BITMAP_COUNT == 0
    ensures pos % BITMAP_COUNT / 8 < BLOCK_SIZE
    ensures Home(pos) + 8 * (pos % BITMAP_COUNT / 8) + pos % BITMAP_COUNT % 8 == pos
  {
  }

  /** Clears bit k of cached byte i. */
  method DropBit(g: Fs, i: nat, k: nat, mask: bv8)
    requires g.Coherent() && g.loadedBitmapBlk != INVAL && i < BLOCK_SIZE && k < 8 && mask == Mask(k)
    modifies g`disk, g`marked, g.bitmap
    ensures g.Coherent() && SameContents(old(g.disk), g.disk)
    ensures g.marked == old(g.marked) - {g.loadedBitmapBlk + 8 * i + k}
  {
    forall j | 0 <= j < 8
      ensures BitOf(g.bitmap[i] & !mask, j) <==> if j == k then false else BitOf(g.bitmap[i], j)
    {
      ClearBit(g.bitmap[i], k, j);
    }
    StoreMark(g, i, k, g.bitmap[i] & !mask, false);
  }

  /** Clears the mark of block pos, loading its bitmap block first if another one is cached. */
  method FreeBlock(g: Fs, pos: nat)
    requires g.Coherent() && pos < g.blkCount
    modifies g`disk, g`marked, g`loadedBitmapBlk, g.bitmap
    ensures g.Coherent() && SameContents(old(g.disk), g.disk)
    ensures g.marked == old(g.marked) - {pos}
    ensures g.loadedBitmapBlk == Home(pos)
  {
    var tmp := Home(pos);
    PlaceOf(pos, g.blkCount);
    if g.loadedBitmapBlk != tmp {
      LoadBitmap(g, tmp);
    }
    var offset := pos % BITMAP_COUNT;
    ShiftOne(offset % 8);
    var mask := (1 as bv8) << (offset % 8);
    DropBit(g, offset / 8, offset % 8, mask);
  }
}
