/** Doubly linked chains of disk blocks: their shape, their bytes, writing and freeing them. */
module Chains {
  import opened Layout
  import opened Volume
  import opened Allocator

  ghost predicate Distinct(c: seq<nat>)
  {
    forall i, j :: 0 <= i < j < |c| ==> c[i] != c[j]
  }

  ghost function PrevOf(c: seq<nat>, i: nat): nat
    requires i < |c|
  {
    if i == 0 then 0 else c[i - 1]
  }

  ghost function NextOf(c: seq<nat>, i: nat): nat
    requires i < |c|
  {
    if i + 1 == |c| then 0 else c[i + 1]
  }

  /** Block i of c is a data block linked to its neighbours in c. */
  ghost predicate DataAt(disk: seq<Block>, c: seq<nat>, i: nat)
    requires i < |c|
  {
    && Usable(c[i], |disk|)
    && disk[c[i]].DataBlk? && |disk[c[i]].data| == DATA_LEN
    && disk[c[i]].prev == PrevOf(c, i) && disk[c[i]].next == NextOf(c, i)
  }

  /** c is a doubly linked list of data blocks; the empty list is an empty file. */
  ghost predicate DataChain(disk: seq<Block>, c: seq<nat>)
  {
    Distinct(c) && forall i :: 0 <= i < |c| ==> DataAt(disk, c, i)
  }

  /** The pointer that stands for a chain in a directory item or handle. */
  ghost function HeadOf(c: seq<nat>): nat { if c == [] then 0 else c[0] }

  /** The bytes of a data chain, block after block. */
  ghost function Flat(disk: seq<Block>, c: seq<nat>): (r: seq<bv8>)
    requires DataChain(disk, c)
    ensures |r| == DATA_LEN * |c|
  {
    seq(DATA_LEN * |c|, j requires 0 <= j < DATA_LEN * |c| =>
      assert DataAt(disk, c, j / DATA_LEN); disk[c[j / DATA_LEN]].data[j % DATA_LEN])
  }

  /** The two disks agree on the blocks of c. */
  ghost predicate Agree(a: seq<Block>, b: seq<Block>, c: seq<nat>)
  {
    |a| == |b| && forall i :: 0 <= i < |c| && c[i] < |a| ==> b[c[i]] == a[c[i]]
  }

  lemma FrameData(disk: seq<Block>, disk': seq<Block>, c: seq<nat>)
    requires DataChain(disk, c) && Agree(disk, disk', c)
    ensures DataChain(disk', c) && Flat(disk', c) == Flat(disk, c)
  {
    forall i | 0 <= i < |c| ensures DataAt(disk', c, i) {
      assert DataAt(disk, c, i);
    }
    forall j | 0 <= j < DATA_LEN * |c| ensures Flat(disk', c)[j] == Flat(disk, c)[j] {
      assert DataAt(disk, c, j / DATA_LEN);
    }
  }

  /** Block i of a chain carries the i-th stretch of its bytes. */
  lemma BlockBytes(disk: seq<Block>, c: seq<nat>, i: nat)
    requires DataChain(disk, c) && i < |c|
    ensures c[i] < |disk| && disk[c[i]].DataBlk? && |disk[c[i]].data| == DATA_LEN
    ensures DATA_LEN * i + DATA_LEN <= |Flat(disk, c)|
    ensures Flat(disk, c)[DATA_LEN * i..DATA_LEN * i + DATA_LEN] == disk[c[i]].data
  {
    assert DataAt(disk, c, i);
    forall x | 0 <= x < DATA_LEN ensures Flat(disk, c)[DATA_LEN * i + x] == disk[c[i]].data[x] {
      assert (DATA_LEN * i + x) / DATA_LEN == i && (DATA_LEN * i + x) % DATA_LEN == x;
    }
  }

  lemma ChainInRange(disk: seq<Block>, c: seq<nat>)
    requires DataChain(disk, c)
    ensures Distinct(c) && forall b :: b in c ==> b < |disk| && Usable(b, |disk|)
  {
    forall b | b in c ensures b < |disk| && Usable(b, |disk|) {
      var i :| 0 <= i < |c| && c[i] == b;
      assert DataAt(disk, c, i);
    }
  }

  /** Following the links of a chain: 0 marks exactly the two ends. */
  lemma LinkFacts(disk: seq<Block>, c: seq<nat>, i: nat)
    requires DataChain(disk, c) && i < |c|
    ensures Usable(c[i], |disk|) && disk[c[i]].DataBlk? && |disk[c[i]].data| == DATA_LEN
    ensures disk[c[i]].prev == PrevOf(c, i) && (PrevOf(c, i) == 0 <==> i == 0)
    ensures disk[c[i]].next == NextOf(c, i) && (NextOf(c, i) == 0 <==> i + 1 == |c|)
  {
    assert DataAt(disk, c, i);
    if i > 0 { assert DataAt(disk, c, i - 1); }
    if i + 1 < |c| { assert DataAt(disk, c, i + 1); }
  }

  /** The links of a chain, from block to block and back. */
  lemma ChainLinks(disk: seq<Block>, c: seq<nat>)
    requires DataChain(disk, c) && c != []
    ensures forall i :: 0 <= i < |c| ==> 0 < c[i] < |disk| && c[i] % 4096 != 0 && disk[c[i]].DataBlk?
    ensures forall i, j :: 0 <= i < j < |c| ==> c[i] != c[j]
    ensures disk[c[0]].prev == 0 && disk[c[|c| - 1]].next == 0
    ensures forall i :: 0 < i < |c| ==> disk[c[i - 1]].next == c[i] && disk[c[i]].prev == c[i - 1]
  {
    forall i | 0 <= i < |c|
      ensures Usable(c[i], |disk|) && disk[c[i]].DataBlk?
      ensures disk[c[i]].prev == PrevOf(c, i) && disk[c[i]].next == NextOf(c, i)
    {
      LinkFacts(disk, c, i);
    }
  }

  /** c can be walked along its next pointers; the first block may have a predecessor. */
  ghost predicate Forward(disk: seq<Block>, c: seq<nat>)
  {
    forall i :: 0 <= i < |c| ==> ForwardAt(disk, c, i)
  }

  ghost predicate ForwardAt(disk: seq<Block>, c: seq<nat>, i: nat)
    requires i < |c|
  {
    Usable(c[i], |disk|) && disk[c[i]].DataBlk? && disk[c[i]].next == NextOf(c, i)
  }

  lemma SuffixForward(disk: seq<Block>, c: seq<nat>, k: nat)
    requires DataChain(disk, c) && k <= |c|
    ensures Forward(disk, c[k..])
  {
    forall i | 0 <= i < |c| - k ensures ForwardAt(disk, c[k..], i) {
      assert DataAt(disk, c, k + i);
    }
  }

  /** Frees the chain c by following the next pointers from its first block. */
  method FreeFileBlocks(g: Fs, first: nat, ghost c: seq<nat>)
    requires g.Coherent() && Forward(g.disk, c) && first == HeadOf(c)
    modifies g`disk, g`marked, g`loadedBitmapBlk, g`buf, g.bitmap
    ensures g.Coherent() && SameContents(old(g.disk), g.disk)
    ensures g.marked == old(g.marked) - Elems(c)
  {
    var pos := first;
    ghost var i := 0;
    ghost var d0 := g.disk;
    if c != [] { ForwardFacts(d0, c, 0); }
    while pos != 0
      invariant i <= |c| && (pos == 0 <==> i == |c|) && (i < |c| ==> pos == c[i])
      invariant g.Coherent() && SameContents(d0, g.disk)
      invariant g.marked == old(g.marked) - Elems(c[..i])
      decreases |c| - i
    {
      ForwardFacts(d0, c, i);
      g.buf := g.ReadBlock(pos);
      FreeBlock(g, pos);
      assert Elems(c[..i + 1]) == Elems(c[..i]) + {c[i]};
      pos := g.buf.next;
      i := i + 1;
    }
    assert c[..i] == c;
  }

  lemma ForwardFacts(disk: seq<Block>, c: seq<nat>, i: nat)
    requires Forward(disk, c) && i < |c|
    ensures Usable(c[i], |disk|) && disk[c[i]].DataBlk?
    ensures disk[c[i]].next == NextOf(c, i) && (NextOf(c, i) == 0 <==> i + 1 == |c|)
  {
    assert ForwardAt(disk, c, i);
    if i + 1 < |c| { assert ForwardAt(disk, c, i + 1); }
  }

  lemma {:induction false} SubsetCard(s: set<nat>, t: set<nat>)
    requires s <= t
    ensures |s| <= |t|
  {
    if s == {} {
    } else {
      var x :| x in s;
      SubsetCard(s - {x}, t - {x});
    }
  }

  lemma DistinctCard(c: seq<nat>)
    requires Distinct(c)
    ensures |Elems(c)| == |c|
  {
    if c != [] {
      var d := c[..|c| - 1];
      DistinctCard(d);
      assert Elems(c) == Elems(d) + {c[|c| - 1]};
    } else {
      assert Elems(c) == {};
    }
  }

  /** The part of `data` that belongs into block j. */
  function Chunk(data: seq<bv8>, j: nat): (r: seq<bv8>)
    ensures |r| <= DATA_LEN
  {
    data[Min(DATA_LEN * j, |data|)..Min(DATA_LEN * j + DATA_LEN, |data|)]
  }

  /** Block j of a chain being written: it carries its share of `data`, and the last block so
      far points to `pos`, the block that is written next. */
  ghost predicate PieceAt(disk: seq<Block>, c: seq<nat>, pos: nat, data: seq<bv8>, j: nat)
    requires j < |c|
  {
    && Usable(c[j], |disk|)
    && disk[c[j]].DataBlk? && |disk[c[j]].data| == DATA_LEN
    && disk[c[j]].prev == PrevOf(c, j) && disk[c[j]].next == (if j + 1 == |c| then pos else c[j + 1])
    && Chunk(data, j) <= disk[c[j]].data
  }

  /** State of a disk and its marks. */
  datatype Snapshot = Snapshot(disk: seq<Block>, marked: set<nat>)

  ghost function FreeOf(s: Snapshot): set<nat> { FreeSet(|s.disk|, s.marked) }

  ghost function Taken(c: seq<nat>, pos: nat): seq<nat>
  {
    if pos == 0 then c else c + [pos]
  }

  /** `now` arose from `was` by writing the blocks c of a chain for `data`; `pos` (if not 0) is
      allocated but not yet written. Apart from `first`, all these blocks were free before. */
  ghost predicate Writing(was: Snapshot, now: Snapshot, first: nat, c: seq<nat>, pos: nat, data: seq<bv8>)
  {
    var all := Taken(c, pos);
    && Distinct(all) && all != [] && all[0] == first
    && (pos != 0 ==> Usable(pos, |now.disk|))
    && (forall j :: 0 <= j < |c| ==> PieceAt(now.disk, c, pos, data, j))
    && SameOutside(was.disk, now.disk, Elems(c))
    && now.marked == was.marked + Elems(all)
    && (forall b :: b in Elems(all) && b != first ==> b !in was.marked)
  }

  lemma WritingMarks(was: Snapshot, now: Snapshot, c: seq<nat>, pos: nat, next: nat)
    requires Distinct(c + [pos]) && now.marked == was.marked + Elems(c + [pos])
    requires pos != 0 && (next != 0 ==> next !in now.marked)
    ensures Elems(c + [pos]) == Elems(c) + {pos} && Elems(c + [pos] + [next]) == Elems(c + [pos]) + {next}
    ensures forall i :: 0 <= i < |c + [pos]| ==> (c + [pos])[i] in now.marked
    ensures next != 0 ==> Distinct(c + [pos] + [next]) && next !in was.marked
  {
    var all := c + [pos];
    assert forall i :: 0 <= i < |all| ==> all[i] in Elems(all);
  }

  /** One more block of the chain was written and, perhaps, the next one allocated. */
  lemma WritingStep(was: Snapshot, now: Snapshot, mid: Snapshot, first: nat, c: seq<nat>, pos: nat,
                    next: nat, blk: Block, data: seq<bv8>)
    requires Writing(was, now, first, c, pos, data) && pos != 0 && first in was.marked
    requires SameContents(now.disk, mid.disk)
    requires if next == 0 then mid.marked == now.marked
             else Usable(next, |now.disk|) && next !in now.marked && mid.marked == now.marked + {next}
    requires blk.DataBlk? && |blk.data| == DATA_LEN
    requires blk.prev == (if c == [] then 0 else c[|c| - 1]) && blk.next == next
    requires Chunk(data, |c|) <= blk.data
    ensures Writing(was, Snapshot(mid.disk[pos := blk], mid.marked), first, c + [pos], next, data)
  {
    hide SameContents, SameOutside, Usable, Chunk, Distinct, PieceAt, Elems;
    SameLength(was.disk, now.disk, mid.disk, Elems(c));
    UsableNonZero(pos, |now.disk|);
    WritingMarks(was, now, c, pos, next);
    assert c + [pos] == Taken(c, pos);
    OutsideStep(was.disk, now.disk, mid.disk, Elems(c), pos, blk);
    PiecesStep(now.disk, mid.disk, mid.disk[pos := blk], c, c + [pos], pos, next, blk, data);
  }

  lemma PiecesStep(disk: seq<Block>, mid: seq<Block>, disk': seq<Block>, c: seq<nat>, c': seq<nat>, pos: nat,
                   next: nat, blk: Block,
                   data: seq<bv8>)
    requires (forall j :: 0 <= j < |c| ==> PieceAt(disk, c, pos, data, j)) && Distinct(c')
    requires SameContents(disk, mid) && Usable(pos, |disk|) && pos < |mid| && disk' == mid[pos := blk]
    requires c' == c + [pos]
    requires blk.DataBlk? && |blk.data| == DATA_LEN && Chunk(data, |c|) <= blk.data
    requires blk.prev == (if c == [] then 0 else c[|c| - 1]) && blk.next == next
    ensures forall j :: 0 <= j < |c'| ==> PieceAt(disk', c', next, data, j)
  {
    hide SameContents, Usable, Chunk;
    ContentsSize(disk, mid);
    UsableNonZero(pos, |disk|);
    forall j | 0 <= j < |c'| ensures PieceAt(disk', c', next, data, j) {
      if j < |c| {
        assert c'[j] != c'[|c|];
        PieceStays(disk, mid, c, pos, next, blk, data, j);
      }
    }
  }

  lemma ContentsSize(a: seq<Block>, b: seq<Block>)
    requires SameContents(a, b)
    ensures |a| == |b|
  {
  }

  lemma SameLength(a: seq<Block>, b: seq<Block>, m: seq<Block>, s: set<nat>)
    requires SameOutside(a, b, s) && SameContents(b, m)
    ensures |a| == |b| == |m|
  {
  }

  lemma PieceStays(disk: seq<Block>, mid: seq<Block>, c: seq<nat>, pos: nat, next: nat, blk: Block,
                   data: seq<bv8>, j: nat)
    requires j < |c| && PieceAt(disk, c, pos, data, j) && c[j] != pos
    requires SameContents(disk, mid) && pos < |disk|
    ensures PieceAt(mid[pos := blk], c + [pos], next, data, j)
  {
  }

  /** The chain c holds `data` as far as it reaches: all of it, or the first |c| full blocks. */
  ghost predicate Holds(disk: seq<Block>, c: seq<nat>, data: seq<bv8>)
  {
    DataChain(disk, c) && Flat(disk, c)[..Min(|data|, DATA_LEN * |c|)] == data[..Min(|data|, DATA_LEN * |c|)]
  }

  /** With no block left to write the chain is proper and holds the data. */
  lemma WritingDone(was: Snapshot, now: Snapshot, first: nat, c: seq<nat>, data: seq<bv8>)
    requires Writing(was, now, first, c, 0, data)
    ensures c[0] == first && Holds(now.disk, c, data)
    ensures now.marked == was.marked + Elems(c) && (Elems(c) - {first}) !! was.marked
  {
    forall j | 0 <= j < |c| ensures DataAt(now.disk, c, j) {
      assert PieceAt(now.disk, c, 0, data, j);
    }
    forall x | 0 <= x < |data| && x < DATA_LEN * |c| ensures Flat(now.disk, c)[x] == data[x] {
      var j := x / DATA_LEN;
      assert PieceAt(now.disk, c, 0, data, j);
      assert Chunk(data, j)[x % DATA_LEN] == data[x];
    }
  }

  /** One round of the block loop of tfs_write_file: fills and writes block `pos`, allocating the
      block after it if more data follows. */
  method WritePiece(g: Fs, pos: nat, off: nat, data: seq<bv8>, ghost was: Snapshot, ghost first: nat, ghost c: seq<nat>)
      returns (blkLen: nat, next: nat)
    requires g.Coherent() && g.HomesMarked() && g.err == None && pos != 0 && first in was.marked
    requires Writing(was, Snapshot(g.disk, g.marked), first, c, pos, data)
    requires off == DATA_LEN * |c| < |data|
    requires g.buf.DataBlk? && |g.buf.data| == DATA_LEN && g.buf.prev == (if c == [] then 0 else c[|c| - 1])
    modifies g`disk, g`marked, g`err, g`loadedBitmapBlk, g`buf, g.bitmap
    ensures g.Coherent() && g.HomesMarked()
    ensures Writing(was, Snapshot(g.disk, g.marked), first, c + [pos], next, data)
    ensures g.buf.DataBlk? && |g.buf.data| == DATA_LEN && g.buf.next == next
    ensures blkLen == Min(DATA_LEN, |data| - off)
    ensures g.err == None || g.err == DiskFull
    ensures g.err == None ==> (next == 0 <==> |data| <= off + DATA_LEN)
    ensures g.err == DiskFull ==> g.Full() && next == 0 && |data| > off + DATA_LEN
  {
    hide Writing, BitmapsOn, MarkedOn, Usable, Chunk;
    ghost var now := Snapshot(g.disk, g.marked);
    blkLen, next := DATA_LEN, 0;
    WritingAt(was, now, first, c, pos, data);
    FreshUsable(g);
    if |data| - off > DATA_LEN {
      next := AllocBlock(g);
    } else {
      blkLen := |data| - off;
    }
    ghost var mid := Snapshot(g.disk, g.marked);
    ChunkIs(data, |c|, blkLen);
    g.buf := DataBlk(g.buf.prev, next, data[off..off + blkLen] + g.buf.data[blkLen..]);
    g.WriteBlock(pos, g.buf);
    WritingStep(was, now, mid, first, c, pos, next, g.buf, data);
  }

  lemma WritingAt(was: Snapshot, now: Snapshot, first: nat, c: seq<nat>, pos: nat, data: seq<bv8>)
    requires Writing(was, now, first, c, pos, data) && pos != 0
    ensures Usable(pos, |now.disk|) && pos < |now.disk|
  {
  }

  lemma ChunkIs(data: seq<bv8>, j: nat, len: nat)
    requires DATA_LEN * j < |data| && len == Min(DATA_LEN, |data| - DATA_LEN * j)
    ensures Chunk(data, j) == data[DATA_LEN * j..DATA_LEN * j + len]
  {
  }

  /** The block loop of tfs_write_file: `first` is allocated, the rest is allocated on the way.
      If the disk fills up, the blocks written so far form a chain that ends properly. */
  method WriteChain(g: Fs, first: nat, data: seq<bv8>) returns (ghost c: seq<nat>)
    requires g.Coherent() && g.HomesMarked() && g.err == None
    requires Usable(first, g.blkCount) && first in g.marked && |data| > 0
    requires g.buf.DataBlk? && g.buf.prev == 0 && |g.buf.data| == DATA_LEN
    modifies g`disk, g`marked, g`err, g`loadedBitmapBlk, g`buf, g.bitmap
    ensures g.Coherent() && |c| > 0 && c[0] == first && Holds(g.disk, c, data)
    ensures SameOutside(old(g.disk), g.disk, Elems(c))
    ensures g.marked == old(g.marked) + Elems(c) && (Elems(c) - {first}) !! old(g.marked)
    ensures g.err == None || g.err == DiskFull
    ensures g.err == None ==> DATA_LEN * (|c| - 1) < |data| <= DATA_LEN * |c|
    ensures g.err == DiskFull ==> g.Full() && DATA_LEN * |c| < |data|
  {
    var pos, off := first, 0;
    c := [];
    ghost var was := Snapshot(g.disk, g.marked);
    while pos != 0
      invariant g.Coherent() && g.HomesMarked() && g.err == None
      invariant Writing(was, Snapshot(g.disk, g.marked), first, c, pos, data)
      invariant pos != 0 ==> off == DATA_LEN * |c| < |data|
      invariant pos != 0 ==> (g.buf.DataBlk? && |g.buf.data| == DATA_LEN
                              && g.buf.prev == (if c == [] then 0 else c[|c| - 1]))
      invariant pos == 0 ==> DATA_LEN * (|c| - 1) < |data| <= DATA_LEN * |c|
      decreases |data| - off, pos
    {
      var blkLen, next := WritePiece(g, pos, off, data, was, first, c);
      c := c + [pos];
      if g.err != None {
        break;
      }
      off := off + blkLen;
      g.buf := g.buf.WithPrev(pos);
      pos := next;
    }
    WritingDone(was, Snapshot(g.disk, g.marked), first, c, data);
  }
}
