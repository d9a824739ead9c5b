/** tfs_write and tfs_read on a file chain: random access to a flat, zero-extended byte array. */
module RandomAccess {
  import opened Layout
  import opened Volume
  import opened Allocator
  import opened Chains
  import opened Cursor

  /** bytes with data put in at position off. */
  function Splice(bytes: seq<bv8>, off: nat, data: seq<bv8>): (r: seq<bv8>)
    requires off + |data| <= |bytes|
    ensures |r| == |bytes|
    ensures forall i :: 0 <= i < |r| ==> r[i] == if off <= i < off + |data| then data[i - off] else bytes[i]
  {
    bytes[..off] + data + bytes[off + |data|..]
  }

  lemma SpliceMore(bytes: seq<bv8>, off: nat, data: seq<bv8>, k: nat, n: nat)
    requires k + n <= |data| && off + k + n <= |bytes|
    ensures Splice(Splice(bytes, off, data[..k]), off + k, data[k..k + n]) == Splice(bytes, off, data[..k + n])
  {
  }

  lemma SpliceJoin(bytes: seq<bv8>, off: nat, data: seq<bv8>, more: seq<bv8>)
    requires off + |data| <= |bytes|
    ensures Splice(bytes, off, data) + more == Splice(bytes + more, off, data)
  {
  }

  /** Changing one block of a chain splices its bytes. */
  lemma PatchBlock(V: seq<Block>, d: seq<nat>, i: nat, os: nat, chunk: seq<bv8>)
    requires DataChain(V, d) && i < |d| && os + |chunk| <= DATA_LEN
    ensures d[i] < |V| && V[d[i]].DataBlk? && |V[d[i]].data| == DATA_LEN
    ensures var b := V[d[i]];
      var V' := V[d[i] := DataBlk(b.prev, b.next, Splice(b.data, os, chunk))];
      DataChain(V', d) && Flat(V', d) == Splice(Flat(V, d), DATA_LEN * i + os, chunk)
  {
    assert DataAt(V, d, i);
    var b := V[d[i]];
    var V' := V[d[i] := DataBlk(b.prev, b.next, Splice(b.data, os, chunk))];
    forall j | 0 <= j < |d| ensures DataAt(V', d, j) {
      assert DataAt(V, d, j);
      assert j != i ==> d[j] != d[i];
    }
    var off := DATA_LEN * i + os;
    forall x | 0 <= x < DATA_LEN * |d| ensures Flat(V', d)[x] == Splice(Flat(V, d), off, chunk)[x] {
      PatchByte(V, V', d, i, os, chunk, x);
    }
  }

  lemma PatchByte(V: seq<Block>, V': seq<Block>, d: seq<nat>, i: nat, os: nat, chunk: seq<bv8>, x: nat)
    requires DataChain(V, d) && DataChain(V', d) && i < |d| && os + |chunk| <= DATA_LEN && x < DATA_LEN * |d|
    requires d[i] < |V| && V[d[i]].DataBlk? && |V[d[i]].data| == DATA_LEN
    requires V' == V[d[i] := DataBlk(V[d[i]].prev, V[d[i]].next, Splice(V[d[i]].data, os, chunk))]
    ensures Flat(V', d)[x] == Splice(Flat(V, d), DATA_LEN * i + os, chunk)[x]
  {
    var j, r := x / DATA_LEN, x % DATA_LEN;
    assert DataAt(V, d, j) && DataAt(V', d, j);
    if j == i {
      assert Splice(V[d[i]].data, os, chunk)[r] ==
        if r < os then V[d[i]].data[r] else if r < os + |chunk| then chunk[r - os] else V[d[i]].data[r];
    } else {
      assert d[j] != d[i];
      assert x < DATA_LEN * i || x >= DATA_LEN * i + DATA_LEN;
    }
  }

  /** The situation at the head of the block loop of tfs_write: the cursor stands on block i of d,
      whose up-to-date version is in the buffer. */
  ghost predicate OnBlock(g: Fs, h: Handle, was: Snapshot, c: seq<nat>, d: seq<nat>, i: nat)
    reads g`disk, g`marked, g`lastBitmapBlk, g`lastBitmapLen, g`loadedBitmapBlk, g.bitmap, g`buf
    reads h`firstBlk, h`currBlk, h`currPos
  {
    && g.Coherent() && g.HomesMarked() && i < |d|
    && h.currBlk == d[i] < |g.disk| && h.currPos == DATA_LEN * i && h.firstBlk == d[0]
    && Grown(was, c, Now(g), Through(g.disk, h.currBlk, g.buf), d)
  }

  /** The bytes of the chain d, seen through the buffer. */
  ghost function Bytes(g: Fs, h: Handle, d: seq<nat>): seq<bv8>
    requires DataChain(Through(g.disk, h.currBlk, g.buf), d)
    reads g`disk, g`buf, h`currBlk
  {
    Flat(Through(g.disk, h.currBlk, g.buf), d)
  }

  lemma BufferOf(g: Fs, h: Handle, was: Snapshot, c: seq<nat>, d: seq<nat>, i: nat)
    requires OnBlock(g, h, was, c, d, i)
    ensures g.buf.DataBlk? && |g.buf.data| == DATA_LEN && Usable(h.currBlk, g.blkCount) && h.currBlk in d
    ensures g.buf.prev == PrevOf(d, i) && g.buf.next == NextOf(d, i) && (g.buf.next == 0 <==> i + 1 == |d|)
    ensures |g.disk| == |was.disk| == g.blkCount
  {
    var V := Through(g.disk, h.currBlk, g.buf);
    GrownLen(was, c, Now(g), V, d);
    LinkFacts(V, d, i);
  }

  /** One round of the block loop of tfs_write: copies into the buffered block, allocates the
      block after it if more data follows and there is none, and writes the block. */
  method PutChunk(g: Fs, h: Handle, os: nat, chunk: seq<bv8>, more: bool, ghost was: Snapshot, ghost c: seq<nat>,
                  ghost d: seq<nat>, ghost i: nat)
      returns (grew: bool, ghost d': seq<nat>)
    requires OnBlock(g, h, was, c, d, i) && g.err == None && os + |chunk| <= DATA_LEN
    modifies g`disk, g`marked, g`err, g`loadedBitmapBlk, g`buf, g.bitmap
    ensures g.Coherent() && g.HomesMarked() && (g.err == None || g.err == DiskFull)
    ensures grew <==> more && i + 1 == |d|
    ensures DataChain(old(Through(g.disk, h.currBlk, g.buf)), d)
    ensures g.err == DiskFull ==> grew && g.Full()
    ensures !grew || g.err == DiskFull ==>
      && d' == d && OnBlock(g, h, was, c, d, i) && g.buf == g.disk[h.currBlk]
      && Bytes(g, h, d) == Splice(old(Bytes(g, h, d)), DATA_LEN * i + os, chunk)
    ensures grew && g.err == None ==>
      && |d'| == |d| + 1 && d'[..|d|] == d && g.buf.DataBlk? && g.buf.next == d'[|d|] < |g.disk|
      && g.buf.next != 0
      && var V := Through(g.disk, d'[|d|], DataBlk(h.currBlk, 0, Zeros(DATA_LEN)));
         Grown(was, c, Now(g), V, d')
         && Flat(V, d') == Splice(old(Bytes(g, h, d)), DATA_LEN * i + os, chunk) + Zeros(DATA_LEN)
  {
    hide Grown, BitmapsOn, MarkedOn, Usable, SameContents, Flat, Splice, DataChain, Through;
    BufferOf(g, h, was, c, d, i);
    ghost var x, buf0 := h.currBlk, g.buf;
    ChunkPatched(was, c, Now(g), d, i, buf0, os, chunk);
    g.buf := DataBlk(g.buf.prev, g.buf.next, Splice(g.buf.data, os, chunk));
    ghost var now, buf1 := Now(g), g.buf;
    FreshUsable(g);
    grew, d' := false, d;
    if more && g.buf.next == 0 {
      var y := AllocBlock(g);
      g.buf := g.buf.WithNext(y);
      grew := true;
    }
    ghost var mid, y := Now(g), g.buf.next;
    ContentsSize(now.disk, mid.disk);
    g.WriteBlock(h.currBlk, g.buf);
    ThroughWritten(mid.disk, x, g.buf);
    if grew && g.err == None {
      GrownStep(was, c, now, d, buf1, mid, y);
      d' := d + [y];
    } else {
      GrownWritten(was, c, now, d, x, buf1, mid);
    }
  }

  lemma ThroughWritten(disk: seq<Block>, x: nat, b: Block)
    requires x < |disk|
    ensures Through(disk, x, b) == disk[x := b] && Through(disk[x := b], x, b) == disk[x := b]
  {
  }

  /** Copying into the buffered block, seen through the buffer. */
  lemma ChunkPatched(was: Snapshot, c: seq<nat>, now: Snapshot, d: seq<nat>, i: nat, buf: Block, os: nat,
                     chunk: seq<bv8>)
    requires i < |d| && d[i] < |now.disk| && Grown(was, c, now, Through(now.disk, d[i], buf), d)
    requires os + |chunk| <= DATA_LEN
    requires buf.DataBlk? && |buf.data| == DATA_LEN
    ensures var V, V' := Through(now.disk, d[i], buf),
        Through(now.disk, d[i], DataBlk(buf.prev, buf.next, Splice(buf.data, os, chunk)));
      && DataChain(V, d) && Grown(was, c, now, V', d) && DataChain(V', d)
      && Flat(V', d) == Splice(Flat(V, d), DATA_LEN * i + os, chunk)
  {
    hide Grown, Flat, Splice, DataChain;
    var V := Through(now.disk, d[i], buf);
    var V' := Through(now.disk, d[i], DataBlk(buf.prev, buf.next, Splice(buf.data, os, chunk)));
    GrownLen(was, c, now, V, d);
    PatchBlock(V, d, i, os, chunk);
    assert V' == V[d[i] := DataBlk(buf.prev, buf.next, Splice(buf.data, os, chunk))];
    GrownPatched(was, c, now, V, V', d);
  }

  lemma GrownPatched(was: Snapshot, c: seq<nat>, now: Snapshot, V: seq<Block>, V': seq<Block>, d: seq<nat>)
    requires Grown(was, c, now, V, d) && DataChain(V', d) && |V'| == |V|
    ensures Grown(was, c, now, V', d)
  {
  }

  /** The bytes of chain c, with zero blocks added up to `blocks` blocks. */
  ghost function Extended(was: Snapshot, c: seq<nat>, blocks: nat): (r: seq<bv8>)
    requires DataChain(was.disk, c)
    ensures |c| <= blocks ==> |r| == DATA_LEN * blocks
    ensures forall i :: 0 <= i < |r| ==> r[i] == if i < DATA_LEN * |c| then Flat(was.disk, c)[i] else 0
  {
    Flat(was.disk, c) + Zeros(if |c| <= blocks then DATA_LEN * (blocks - |c|) else 0)
  }

  lemma ExtendedMore(was: Snapshot, c: seq<nat>, blocks: nat)
    requires DataChain(was.disk, c) && |c| <= blocks
    ensures Extended(was, c, blocks) + Zeros(DATA_LEN) == Extended(was, c, blocks + 1)
  {
    ZerosJoin(DATA_LEN * (blocks - |c|), DATA_LEN);
  }

  /** The head of the block loop of tfs_write after `done` bytes: block i is buffered, it contains
      the next position, and the chain shows everything written so far. */
  ghost predicate Midway(g: Fs, h: Handle, was: Snapshot, c: seq<nat>, d: seq<nat>, i: nat, offset: nat,
                         data: seq<bv8>, done: nat)
    requires DataChain(was.disk, c)
    reads g`disk, g`marked, g`lastBitmapBlk, g`lastBitmapLen, g`loadedBitmapBlk, g.bitmap, g`buf
    reads h`firstBlk, h`currBlk, h`currPos
  {
    && OnBlock(g, h, was, c, d, i) && |c| <= |d|
    && DataChain(Through(g.disk, h.currBlk, g.buf), d)
    && done <= |data| && DATA_LEN * i <= offset + done <= DATA_LEN * i + DATA_LEN
    && Bytes(g, h, d) == Splice(Extended(was, c, |d|), offset, data[..done])
  }

  /** One round of the loop, including the step to the next block. `more` tells whether there is
      a next round. */
  method WriteRound(g: Fs, h: Handle, offset: nat, data: seq<bv8>, done: nat, append: bool,
                    ghost was: Snapshot, ghost c: seq<nat>, ghost d: seq<nat>, ghost i: nat)
      returns (n: nat, append': bool, ghost d': seq<nat>, ghost i': nat)
    requires DataChain(was.disk, c) && Midway(g, h, was, c, d, i, offset, data, done) && g.err == None
    requires done < |data| && offset + done < DATA_LEN * i + DATA_LEN && (append ==> i + 1 == |d|)
    modifies g`disk, g`marked, g`err, g`loadedBitmapBlk, g`buf, g.bitmap, h`currBlk, h`currPos, h`size
    ensures n == Min(DATA_LEN * i + DATA_LEN - (offset + done), |data| - done) && n > 0
    ensures Midway(g, h, was, c, d', i', offset, data, done + n)
    ensures |d| <= |d'| && (append' ==> i' + 1 == |d'|)
    ensures g.err == None || (g.err == DiskFull && g.Full())
    ensures done + n == |data| || g.err == DiskFull ==> d' == d && i' == i && g.buf == g.disk[h.currBlk]
    ensures done + n < |data| && g.err == None ==>
      i' == i + 1 && |d'| == Max(|d|, i + 2) && offset + (done + n) == DATA_LEN * i'
    ensures h.size == if g.err == None then Max(old(h.size), offset + done + n) else old(h.size)
    ensures g.err == DiskFull ==> done + n < |data| && i + 1 == |d| && offset + (done + n) == DATA_LEN * |d|
  {
    hide Grown, BitmapsOn, MarkedOn, Usable, DataAt, Distinct, Flat, Splice, DataChain, Extended, SameOutside,
      Through, Elems;
    var os := offset + done - h.currPos;
    n := DATA_LEN - os;
    if n > |data| - done {
      n := |data| - done;
    }
    var more := done + n < |data|;
    append' := append;
    i' := i;
    var grew;
    ghost var B := Extended(was, c, |d|);
    SpliceMore(B, offset, data, done, n);
    assert DATA_LEN * i + os == offset + done;
    grew, d' := PutChunk(g, h, os, data[done..done + n], more, was, c, d, i);
    if grew {
      append' := true;
    }
    if !grew || g.err == DiskFull {
      GrownLen(was, c, Now(g), Through(g.disk, h.currBlk, g.buf), d);
      assert Bytes(g, h, d) == Splice(B, offset, data[..done + n]);
    }
    if g.err != None {
      return;
    }
    if offset + done + n > h.size {
      h.size := offset + done + n;
    }
    if !more {
      return;
    }
    if append' {
      SpliceJoin(B, offset, data[..done + n], Zeros(DATA_LEN));
      ExtendedMore(was, c, |d|);
      StepFresh(g, h, was, c, d, d', i);
    } else {
      StepRead(g, h, was, c, d, i);
    }
    i' := i + 1;
  }

  /** The step of the block loop to the block that was just taken: it starts out zeroed. */
  method StepFresh(g: Fs, h: Handle, ghost was: Snapshot, ghost c: seq<nat>, ghost d: seq<nat>, ghost d': seq<nat>,
                   ghost i: nat)
    requires g.Coherent() && g.HomesMarked() && i + 1 == |d| && |d'| == |d| + 1 && d'[..|d|] == d
    requires h.currBlk == d[i] && h.currPos == DATA_LEN * i && h.firstBlk == d[0]
    requires g.buf.DataBlk? && g.buf.next == d'[|d|] < |g.disk|
    requires Grown(was, c, Now(g), Through(g.disk, d'[|d|], DataBlk(h.currBlk, 0, Zeros(DATA_LEN))), d')
    modifies g`buf, h`currBlk, h`currPos
    ensures OnBlock(g, h, was, c, d', i + 1) && |c| <= |d'| && DataChain(Through(g.disk, h.currBlk, g.buf), d')
    ensures Through(g.disk, h.currBlk, g.buf) == Through(g.disk, d'[|d|], DataBlk(old(h.currBlk), 0, Zeros(DATA_LEN)))
  {
    hide Grown, BitmapsOn, MarkedOn, Usable, DataAt, Distinct, DataChain;
    GrownLen(was, c, Now(g), Through(g.disk, d'[|d|], DataBlk(h.currBlk, 0, Zeros(DATA_LEN))), d');
    assert d'[0] == d'[..|d|][0];
    var next := g.buf.next;
    g.buf := DataBlk(h.currBlk, 0, Zeros(DATA_LEN));
    h.currBlk := next;
    h.currPos := h.currPos + DATA_LEN;
  }

  /** The step of the block loop to the next block of the chain. */
  method StepRead(g: Fs, h: Handle, ghost was: Snapshot, ghost c: seq<nat>, ghost d: seq<nat>, ghost i: nat)
    requires OnBlock(g, h, was, c, d, i) && i + 1 < |d| && g.buf == g.disk[h.currBlk]
    modifies g`buf, h`currBlk, h`currPos
    ensures OnBlock(g, h, was, c, d, i + 1) && |c| <= |d| && DataChain(Through(g.disk, h.currBlk, g.buf), d)
    ensures Through(g.disk, h.currBlk, g.buf) == old(Through(g.disk, h.currBlk, g.buf))
  {
    hide Grown, BitmapsOn, MarkedOn, Usable, DataAt, Distinct, DataChain;
    BufferOf(g, h, was, c, d, i);
    GrownLen(was, c, Now(g), Through(g.disk, h.currBlk, g.buf), d);
    assert Through(g.disk, h.currBlk, g.buf) == g.disk;
    h.currBlk := g.buf.next;
    g.buf := g.ReadBlock(h.currBlk);
    h.currPos := h.currPos + DATA_LEN;
    assert Through(g.disk, h.currBlk, g.buf) == g.disk;
  }

  /** A write to a file of at most `blocks` blocks does not leave the 32-bit positions: seek finds
      its way, and the written range ends below the limit or behind the last block there can be. */
  predicate WriteFits(offset: nat, len: nat, blocks: nat)
  {
    Fits32(offset, blocks) && len < LIMIT && (offset + len < LIMIT || DATA_LEN * blocks <= SEEK_LIMIT)
  }

  /** So it is for every write that ends below the limit, and for all of them on a small file. */
  lemma WritesFit(offset: nat, len: nat, blocks: nat)
    requires offset + len < 0xffff_ff00 || (offset < LIMIT && len < LIMIT && 504 * blocks <= 0xffff_ff00)
    ensures WriteFits(offset, len, blocks)
  {
  }

  /** What tfs_write does to the chain and the handle, up to the update of the directory item.
      `ret` bytes were written; `update` says whether the item must be rewritten. */
  method WriteAt(g: Fs, h: Handle, data: seq<bv8>, offset: nat, ghost c: seq<nat>)
      returns (ret: nat, update: bool, ghost d: seq<nat>)
    requires Tracks(g, h, c) && g.err == None && |data| > 0 && WriteFits(offset, |data|, |c| + |FreeOf(Now(g))|)
    modifies g`disk, g`marked, g`err, g`loadedBitmapBlk, g`buf, g.bitmap, h`firstBlk, h`currBlk, h`currPos, h`size
    ensures Tracks(g, h, d) && Grown(old(Now(g)), c, Now(g), g.disk, d) && DataChain(old(g.disk), c) && |c| <= |d|
    ensures ret <= |data| && (ret > 0 ==> offset + ret <= DATA_LEN * |d|)
    ensures ret == 0 ==> Flat(g.disk, d) == Extended(old(Now(g)), c, |d|)
    ensures ret > 0 ==> Flat(g.disk, d) == Splice(Extended(old(Now(g)), c, |d|), offset, data[..ret])
    ensures g.err == None ==> ret == |data| && |d| == Max(|c|, (offset + |data| - 1) / DATA_LEN + 1)
    ensures g.err == None ==> h.size == Max(old(h.size), offset + |data|)
    ensures g.err == None ==> (update <==> |c| <= offset / DATA_LEN || old(h.size) < offset + |data|)
    ensures g.err != None ==>
      g.err == DiskFull && g.Full() && ret < |data| && ret == Max(DATA_LEN * |d|, offset) - offset
    ensures g.err != None ==>
      h.size == if offset < DATA_LEN * (|d| - 1) then Max(old(h.size), DATA_LEN * (|d| - 1)) else old(h.size)
  {
    hide Grown, BitmapsOn, MarkedOn, Usable, DataAt, Distinct, Flat, Splice, DataChain, Extended;
    ghost var was := Now(g);
    var res;
    res, d := Seek(g, h, offset, true, c);
    ret := 0;
    var append := res == SeekAppend;
    update := append;
    if g.err != None {
      ExtendsFinal(was, c, g, h, d);
      return;
    }
    StartMidway(g, h, was, c, d, offset / DATA_LEN, offset, data, res);
    var resized;
    ghost var i;
    ret, resized, d, i := WriteLoop(g, h, data, offset, append, was, c, d);
    update := update || resized;
    EndMidway(g, h, was, c, d, i, offset, data, ret);
  }

  /** The block loop of tfs_write, from the block that contains `offset` on. */
  method WriteLoop(g: Fs, h: Handle, data: seq<bv8>, offset: nat, append0: bool, ghost was: Snapshot,
                   ghost c: seq<nat>, ghost d0: seq<nat>)
      returns (ret: nat, resized: bool, ghost d: seq<nat>, ghost i: nat)
    requires DataChain(was.disk, c) && Midway(g, h, was, c, d0, offset / DATA_LEN, offset, data, 0) && g.err == None
    requires |data| > 0
    requires |d0| == Max(|c|, offset / DATA_LEN + 1) && (append0 ==> offset / DATA_LEN + 1 == |d0|)
    modifies g`disk, g`marked, g`err, g`loadedBitmapBlk, g`buf, g.bitmap, h`currBlk, h`currPos, h`size
    ensures Midway(g, h, was, c, d, i, offset, data, ret) && g.buf == g.disk[h.currBlk]
    ensures ret > 0 && offset + ret <= DATA_LEN * |d| && (resized <==> h.size > old(h.size))
    ensures g.err == None ==> ret == |data| && |d| == Max(|c|, (offset + |data| - 1) / DATA_LEN + 1)
    ensures g.err == None ==> h.size == Max(old(h.size), offset + |data|)
    ensures g.err != None ==> g.err == DiskFull && g.Full() && ret < |data| && offset + ret == DATA_LEN * |d|
    ensures g.err != None ==>
      h.size == if offset < DATA_LEN * (|d| - 1) then Max(old(h.size), DATA_LEN * (|d| - 1)) else old(h.size)
  {
    hide Midway;
    ret, resized, d, i := 0, false, d0, offset / DATA_LEN;
    var append := append0;
    while true
      invariant ret < |data| && g.err == None && (append ==> i + 1 == |d|)
      invariant Midway(g, h, was, c, d, i, offset, data, ret)
      invariant i == (offset + ret) / DATA_LEN && |d| == Max(|c|, i + 1)
      invariant h.size == if ret == 0 then old(h.size) else Max(old(h.size), offset + ret)
      invariant ret > 0 ==> offset + ret == DATA_LEN * i
      invariant resized <==> h.size > old(h.size)
      decreases |data| - ret
    {
      var n, size := 0, h.size;
      n, append, d, i := WriteRound(g, h, offset, data, ret, append, was, c, d, i);
      ret := ret + n;
      if g.err != None {
        return;
      }
      if h.size > size {
        resized := true;
      }
      if ret == |data| {
        return;
      }
    }
  }

  lemma ExtendsFinal(was: Snapshot, c: seq<nat>, g: Fs, h: Handle, d: seq<nat>)
    requires DataChain(was.disk, c) && Extends(was, c, Now(g), g.disk, d) && g.Coherent() && g.HomesMarked()
    requires h.firstBlk == HeadOf(d) && CursorOk(d, h.currBlk, h.currPos)
    ensures Tracks(g, h, d) && Grown(was, c, Now(g), g.disk, d) && |c| <= |d|
    ensures Flat(g.disk, d) == Extended(was, c, |d|)
  {
    GrownLen(was, c, Now(g), g.disk, d);
  }

  /** After seek the loop starts with nothing written. */
  lemma StartMidway(g: Fs, h: Handle, was: Snapshot, c: seq<nat>, d: seq<nat>, i: nat, offset: nat, data: seq<bv8>,
                    res: SeekResult)
    requires DataChain(was.disk, c) && g.Coherent() && g.HomesMarked() && i == offset / DATA_LEN
    requires h.firstBlk == HeadOf(d)
    requires Extends(was, c, Now(g), if res == SeekAppend then Through(g.disk, h.currBlk, g.buf) else g.disk, d)
    requires res == SeekAppend ==> AtPending(g, h, d) && |d| == i + 1
    requires res != SeekAppend ==>
      i < |d| && h.currBlk == d[i] < |g.disk| && h.currPos == DATA_LEN * i && g.buf == g.disk[h.currBlk]
    ensures Midway(g, h, was, c, d, i, offset, data, 0)
  {
    hide Grown, Usable, DataAt, Distinct, Flat, DataChain;
    var V := if res == SeekAppend then Through(g.disk, h.currBlk, g.buf) else g.disk;
    GrownLen(was, c, Now(g), V, d);
    assert Through(g.disk, h.currBlk, g.buf) == V;
    assert Splice(Extended(was, c, |d|), offset, data[..0]) == Extended(was, c, |d|);
  }

  /** After the last round the chain on disk shows what was written. */
  lemma EndMidway(g: Fs, h: Handle, was: Snapshot, c: seq<nat>, d: seq<nat>, i: nat, offset: nat, data: seq<bv8>,
                  done: nat)
    requires DataChain(was.disk, c) && Midway(g, h, was, c, d, i, offset, data, done)
    requires g.buf == g.disk[h.currBlk]
    ensures Tracks(g, h, d) && Grown(was, c, Now(g), g.disk, d) && |c| <= |d|
    ensures Flat(g.disk, d) == Splice(Extended(was, c, |d|), offset, data[..done])
  {
    hide Grown, Usable, DataAt, Distinct, Flat, DataChain;
    assert Through(g.disk, h.currBlk, g.buf) == g.disk;
    GrownLen(was, c, Now(g), g.disk, d);
  }

  // ----- tfs_read -----

  /** The bytes from offset on, at most len of them, that lie within both the file size and the
      blocks of the file. */
  function Window(bytes: seq<bv8>, size: nat, offset: nat, len: nat): (r: seq<bv8>)
    ensures |r| <= len && (r != [] ==> offset + |r| <= size && offset + |r| <= |bytes|)
    ensures |r| == len || offset + |r| >= size || offset + |r| >= |bytes|
    ensures forall i :: 0 <= i < |r| ==> offset + i < |bytes| && r[i] == bytes[offset + i]
  {
    var end := Min(Min(offset + len, size), |bytes|);
    if offset <= end then bytes[offset..end] else []
  }

  /** What tfs_read does to the chain and the handle. */
  method ReadAt(g: Fs, h: Handle, len: nat, offset: nat, ghost c: seq<nat>) returns (out: seq<bv8>)
    requires Tracks(g, h, c) && g.err == None && (Fits32(offset, |c|) || h.size < offset)
    modifies g`disk, g`marked, g`err, g`loadedBitmapBlk, g`buf, g.bitmap, h`firstBlk, h`currBlk, h`currPos
    ensures Tracks(g, h, c) && g.err == None && g.disk == old(g.disk) && g.marked == old(g.marked)
    ensures out == Window(Flat(g.disk, c), h.size, offset, len)
    // as many bytes as asked for, as far as size and blocks reach, and exactly those of the file
    ensures |out| <= len && (out != [] ==> offset + |out| <= h.size && offset + |out| <= |Flat(g.disk, c)|)
    ensures |out| == len || offset + |out| >= h.size || offset + |out| >= |Flat(g.disk, c)|
    ensures forall i :: 0 <= i < |out| ==> offset + i < |Flat(g.disk, c)| && out[i] == Flat(g.disk, c)[offset + i]
  {
    hide Grown, BitmapsOn, MarkedOn, Usable, DataAt, Distinct, Flat, DataChain, Extends;
    out := [];
    if offset > h.size {
      return;
    }
    var len' := len;
    if len' > h.size - offset {
      len' := h.size - offset;
    }
    ghost var d;
    var res;
    res, d := Seek(g, h, offset, false, c);
    if res == SeekEof {
      return;
    }
    if len' == 0 {
      return;
    }
    out := CopyOut(g, h, offset, len', c);
  }

  /** The block loop of tfs_read. */
  method CopyOut(g: Fs, h: Handle, offset: nat, len: nat, ghost c: seq<nat>) returns (out: seq<bv8>)
    requires g.Coherent() && DataChain(g.disk, c) && offset / DATA_LEN < |c| && len > 0
    requires h.currBlk == c[offset / DATA_LEN] < |g.disk| && h.currPos == DATA_LEN * (offset / DATA_LEN)
    requires g.buf == g.disk[h.currBlk]
    modifies g`buf, h`currBlk, h`currPos
    ensures CursorOk(c, h.currBlk, h.currPos)
    ensures out == Flat(g.disk, c)[offset..Min(offset + len, DATA_LEN * |c|)]
  {
    hide BitmapsOn, MarkedOn, Usable, DataAt, Distinct, Flat, DataChain;
    out := [];
    ghost var i := offset / DATA_LEN;
    while true
      invariant i < |c| && h.currBlk == c[i] < |g.disk| && h.currPos == DATA_LEN * i && g.buf == g.disk[h.currBlk]
      invariant |out| < len && DATA_LEN * i <= offset + |out| < DATA_LEN * i + DATA_LEN
      invariant out == Flat(g.disk, c)[offset..offset + |out|]
      decreases |c| - i
    {
      LinkFacts(g.disk, c, i);
      BlockBytes(g.disk, c, i);
      var os := offset + |out| - h.currPos;
      var n := DATA_LEN - os;
      if n > len - |out| {
        n := len - |out|;
      }
      JoinSlice(Flat(g.disk, c), offset, |out|, DATA_LEN * i, os, n, g.buf.data);
      out := out + g.buf.data[os..os + n];
      if |out| == len {
        break;
      }
      h.currBlk := g.buf.next;
      h.currPos := h.currPos + DATA_LEN;
      i := i + 1;
      if h.currBlk == 0 {
        break;
      }
      LinkFacts(g.disk, c, i);
      g.buf := g.ReadBlock(h.currBlk);
    }
  }

  lemma JoinSlice(bytes: seq<bv8>, offset: nat, done: nat, at: nat, os: nat, n: nat, blk: seq<bv8>)
    requires |blk| == DATA_LEN && at + DATA_LEN <= |bytes| && bytes[at..at + DATA_LEN] == blk
    requires offset + done == at + os && os + n <= DATA_LEN
    ensures bytes[offset..offset + done] + blk[os..os + n] == bytes[offset..offset + done + n]
  {
    forall y | at + os <= y < at + os + n ensures bytes[y] == blk[y - at] {
      assert bytes[at..at + DATA_LEN][y - at] == blk[y - at];
    }
  }

  // ----- tfs_trunc -----

  lemma GrownOutside(was: Snapshot, c: seq<nat>, now: Snapshot, V: seq<Block>, d: seq<nat>)
    requires Grown(was, c, now, V, d)
    ensures SameOutside(was.disk, now.disk, Elems(c) + Elems(d)) && Elems(d) <= now.marked && |c| <= |d|
  {
  }

  /** Freeing blocks of a chain leaves the bitmap blocks marked. */
  lemma HomesStay(disk: seq<Block>, c: seq<nat>, n: nat, marked: set<nat>, freed: set<nat>)
    requires DataChain(disk, c) && freed <= Elems(c)
    requires forall p :: 0 <= p < n && p % BITMAP_COUNT == 0 ==> p in marked
    ensures forall p :: 0 <= p < n && p % BITMAP_COUNT == 0 ==> p in marked - freed
  {
    forall p | 0 <= p < n && p % BITMAP_COUNT == 0 ensures p !in freed {
      if p in freed {
        var i :| 0 <= i < |c| && c[i] == p;
        LinkFacts(disk, c, i);
      }
    }
  }

  lemma EmptyFlat(disk: seq<Block>, disk': seq<Block>, c: seq<nat>, s: set<nat>)
    requires DataChain(disk, c) && SameContents(disk, disk')
    ensures DataChain(disk', []) && Flat(disk', []) == Flat(disk, c)[..0] && SameOutside(disk, disk', s)
    ensures Elems([]) == {} && c[..0] == [] && c[0..] == c
  {
  }

  /** Cutting a chain behind block k: the front stays a chain, the rest can still be walked. */
  lemma CutData(disk: seq<Block>, disk': seq<Block>, c: seq<nat>, k: nat)
    requires DataChain(disk, c) && k < |c| && c[k] < |disk| && disk' == disk[c[k] := disk[c[k]].WithNext(0)]
    ensures DataChain(disk', c[..k + 1]) && Forward(disk', c[k + 1..])
    ensures Flat(disk', c[..k + 1]) == Flat(disk, c)[..DATA_LEN * (k + 1)]
    ensures Distinct(c[..k + 1]) && Elems(c[..k + 1]) <= Elems(c) && Elems(c[..k + 1]) !! Elems(c[k + 1..])
  {
    var d, e := c[..k + 1], c[k + 1..];
    forall i | 0 <= i < |d| ensures DataAt(disk', d, i) {
      assert DataAt(disk, c, i) && DataAt(disk, c, k);
      assert i != k ==> c[i] != c[k];
    }
    forall i | 0 <= i < |e| ensures ForwardAt(disk', e, i) {
      assert DataAt(disk, c, |d| + i);
      assert e[i] == c[|d| + i] != c[k];
    }
    forall x | 0 <= x < DATA_LEN * |d| ensures Flat(disk', d)[x] == Flat(disk, c)[x] {
      assert DataAt(disk', d, x / DATA_LEN) && DataAt(disk, c, x / DATA_LEN) && DataAt(disk, c, k);
    }
  }

  /** Trunc inside the chain: the rest behind block k is unlinked and freed. */
  method CutChain(g: Fs, h: Handle, ghost c: seq<nat>, ghost k: nat)
    requires g.Coherent() && g.HomesMarked() && Elems(c) <= g.marked && DataChain(g.disk, c) && h.firstBlk == HeadOf(c)
    requires k < |c| && h.currBlk == c[k] < |g.disk| && h.currPos == DATA_LEN * k && g.buf == g.disk[h.currBlk]
    modifies g`disk, g`marked, g`loadedBitmapBlk, g`buf, g.bitmap
    ensures Tracks(g, h, c[..k + 1]) && SameOutside(old(g.disk), g.disk, Elems(c) + Elems(c[..k + 1]))
    ensures g.marked == old(g.marked) - Elems(c[k + 1..])
    ensures Flat(g.disk, c[..k + 1]) == Flat(old(g.disk), c)[..DATA_LEN * (k + 1)]
  {
    hide BitmapsOn, MarkedOn, Usable, DataAt, Distinct, Flat, DataChain, SameContents, SameOutside, Forward;
    ghost var disk0, d := g.disk, c[..k + 1];
    LinkFacts(g.disk, c, k);
    CutData(g.disk, g.disk[c[k] := g.disk[c[k]].WithNext(0)], c, k);
    var freeFrom := g.buf.next;
    g.buf := g.buf.WithNext(0);
    if freeFrom != 0 {
      g.WriteBlock(h.currBlk, g.buf);
    } else {
      assert g.disk[c[k] := g.buf] == g.disk;
    }
    ghost var disk1 := g.disk;
    HomesStay(disk0, c, g.blkCount, g.marked, Elems(c[k + 1..]));
    FreeFileBlocks(g, freeFrom, c[k + 1..]);
    CutDone(disk0, disk1, g.disk, c, k);
  }

  lemma CutDone(disk0: seq<Block>, disk1: seq<Block>, disk: seq<Block>, c: seq<nat>, k: nat)
    requires k < |c| && c[k] < |disk0| && disk1 == disk0[c[k] := disk0[c[k]].WithNext(0)]
    requires DataChain(disk1, c[..k + 1]) && SameContents(disk1, disk)
    ensures DataChain(disk, c[..k + 1]) && Flat(disk, c[..k + 1]) == Flat(disk1, c[..k + 1])
    ensures SameOutside(disk0, disk, Elems(c) + Elems(c[..k + 1]))
    ensures CursorOk(c[..k + 1], c[k], DATA_LEN * k) && HeadOf(c[..k + 1]) == HeadOf(c)
  {
    var d := c[..k + 1];
    forall i | 0 <= i < |d| && d[i] < |disk1| ensures disk[d[i]] == disk1[d[i]] {
      assert DataAt(disk1, d, i);
    }
    FrameData(disk1, disk, d);
    assert c[k] in Elems(c) && d[k] == c[k];
  }

  /** Trunc past the end: the pending last block is written. */
  method FlushPending(g: Fs, h: Handle, ghost was: Snapshot, ghost c: seq<nat>, ghost d: seq<nat>)
    requires g.Coherent() && g.HomesMarked() && AtPending(g, h, d) && DataChain(was.disk, c)
    requires Extends(was, c, Now(g), Through(g.disk, h.currBlk, g.buf), d)
    modifies g`disk
    ensures Tracks(g, h, d) && Grown(was, c, Now(g), g.disk, d) && |c| <= |d|
    ensures Flat(g.disk, d) == Extended(was, c, |d|)
  {
    hide BitmapsOn, MarkedOn, Usable, DataAt, Distinct, Flat, DataChain, Grown;
    ghost var now := Now(g);
    GrownLen(was, c, now, Through(g.disk, h.currBlk, g.buf), d);
    g.WriteBlock(h.currBlk, g.buf);
    GrownWritten(was, c, now, d, h.currBlk, g.buf, now);
    GrownLen(was, c, Now(g), g.disk, d);
  }

  /** What tfs_trunc does to the chain, up to the update of the directory item. On success the
      chain keeps its first blocks, is cut or grown to hold position `size`, and exactly the
      blocks cut off are freed. */
  method TruncAt(g: Fs, h: Handle, size: nat, ghost c: seq<nat>) returns (ghost d: seq<nat>)
    requires Tracks(g, h, c) && g.err == None && Fits32(size, |c| + |FreeOf(Now(g))|)
    modifies g`disk, g`marked, g`err, g`loadedBitmapBlk, g`buf, g.bitmap, h`firstBlk, h`currBlk, h`currPos
    ensures Tracks(g, h, d) && SameOutside(old(g.disk), g.disk, Elems(c) + Elems(d))
    ensures g.err == None ==> |d| == if size == 0 then 0 else size / DATA_LEN + 1
    ensures |d| <= |c| && g.err == None ==>
      && d == c[..|d|] && g.marked == old(g.marked) - Elems(c[|d|..])
      && Flat(g.disk, d) == Flat(old(g.disk), c)[..DATA_LEN * |d|]
    ensures |c| < |d| || g.err != None ==>
      Grown(old(Now(g)), c, Now(g), g.disk, d) && |c| <= |d| && Flat(g.disk, d) == Extended(old(Now(g)), c, |d|)
    ensures g.err != None ==> g.err == DiskFull && g.Full() && size > 0 && |d| <= size / DATA_LEN
  {
    hide Grown, BitmapsOn, MarkedOn, Usable, DataAt, Distinct, Flat, DataChain, SameContents, SameOutside, Extended;
    ghost var was := Now(g);
    if size == 0 {
      SuffixForward(g.disk, c, 0);
      assert c[0..] == c;
      HomesStay(g.disk, c, g.blkCount, g.marked, Elems(c));
      FreeFileBlocks(g, h.firstBlk, c);
      h.firstBlk := 0;
      InitPos(h);
      d := [];
      EmptyFlat(was.disk, g.disk, c, Elems(c) + Elems([]));
      return;
    }
    var res;
    res, d := Seek(g, h, size, true, c);
    if g.err != None {
      ExtendsFinal(was, c, g, h, d);
      GrownOutside(was, c, Now(g), g.disk, d);
      return;
    }
    if res == SeekOk {
      CutChain(g, h, c, size / DATA_LEN);
      d := c[..size / DATA_LEN + 1];
    } else {
      FlushPending(g, h, was, c, d);
      GrownOutside(was, c, Now(g), g.disk, d);
    }
  }
}
