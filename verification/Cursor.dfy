/** The seek cursor of a file handle, and appending with one block pending in the buffer. */
module Cursor {
  import opened Layout
  import opened Volume
  import opened Allocator
  import opened Chains

  datatype SeekResult = SeekError | SeekOk | SeekEof | SeekAppend

  // ----- chains seen through the buffer -----

  /** The disk as it would be once the buffer is written to block x. */
  ghost function Through(disk: seq<Block>, x: nat, buf: Block): seq<Block>
  {
    if x < |disk| then disk[x := buf] else disk
  }

  lemma ZerosJoin(m: nat, n: nat)
    ensures Zeros(m) + Zeros(n) == Zeros(m + n)
  {
  }

  /** One more block at the end: its bytes come after the others. */
  lemma FlatGrown(V: seq<Block>, d: seq<nat>, V': seq<Block>, y: nat)
    requires DataChain(V, d) && DataChain(V', d + [y])
    requires forall i :: 0 <= i < |d| && d[i] < |V| && d[i] < |V'| && V[d[i]].DataBlk? && V'[d[i]].DataBlk? ==>
      V'[d[i]].data == V[d[i]].data
    ensures y < |V'| && V'[y].DataBlk? && Flat(V', d + [y]) == Flat(V, d) + V'[y].data
  {
    assert DataAt(V', d + [y], |d|);
    forall j | 0 <= j < DATA_LEN * |d| + DATA_LEN
      ensures Flat(V', d + [y])[j] == (Flat(V, d) + V'[y].data)[j]
    {
      assert DataAt(V', d + [y], j / DATA_LEN);
      if j < DATA_LEN * |d| {
        assert DataAt(V, d, j / DATA_LEN);
      }
    }
  }

  /** The pending block d[|d|-1] is linked on to a fresh block y, which becomes pending. */
  lemma GrowPending(disk: seq<Block>, mid: seq<Block>, d: seq<nat>, buf: Block, y: nat)
    requires d != [] && d[|d| - 1] < |disk| && DataChain(Through(disk, d[|d| - 1], buf), d)
    requires SameContents(disk, mid) && y !in d && Usable(y, |disk|)
    ensures var x := d[|d| - 1];
      var V' := Through(Through(mid, x, buf.WithNext(y)), y, DataBlk(x, 0, Zeros(DATA_LEN)));
      && DataChain(V', d + [y])
      && Flat(V', d + [y]) == Flat(Through(disk, x, buf), d) + Zeros(DATA_LEN)
  {
    hide Flat, SameContents, DataAt, Usable;
    var x := d[|d| - 1];
    var V := Through(disk, x, buf);
    var V' := Through(Through(mid, x, buf.WithNext(y)), y, DataBlk(x, 0, Zeros(DATA_LEN)));
    var d' := d + [y];
    forall i | 0 <= i < |d|
      ensures DataAt(V', d', i) && d[i] < |V| && d[i] < |V'| && V[d[i]].DataBlk? && V'[d[i]].DataBlk?
      ensures V'[d[i]].data == V[d[i]].data
    {
      GrowPendingAt(disk, mid, d, buf, y, i);
    }
    FreshLast(disk, mid, d, buf, y);
    FlatGrown(V, d, V', y);
  }

  lemma FreshLast(disk: seq<Block>, mid: seq<Block>, d: seq<nat>, buf: Block, y: nat)
    requires d != [] && d[|d| - 1] < |disk| && SameContents(disk, mid) && Usable(y, |disk|)
    ensures var x := d[|d| - 1];
      var V' := Through(Through(mid, x, buf.WithNext(y)), y, DataBlk(x, 0, Zeros(DATA_LEN)));
      DataAt(V', d + [y], |d|) && y < |V'| && V'[y] == DataBlk(x, 0, Zeros(DATA_LEN))
  {
  }

  lemma GrowPendingAt(disk: seq<Block>, mid: seq<Block>, d: seq<nat>, buf: Block, y: nat, i: nat)
    requires d != [] && d[|d| - 1] < |disk| && DataChain(Through(disk, d[|d| - 1], buf), d)
    requires SameContents(disk, mid) && y !in d && Usable(y, |disk|) && i < |d|
    ensures var x := d[|d| - 1];
      var V' := Through(Through(mid, x, buf.WithNext(y)), y, DataBlk(x, 0, Zeros(DATA_LEN)));
      && DataAt(V', d + [y], i) && DataAt(Through(disk, x, buf), d, i)
      && d[i] < |Through(disk, x, buf)| && d[i] < |V'| && Through(disk, x, buf)[d[i]].DataBlk? && V'[d[i]].DataBlk?
      && V'[d[i]].data == Through(disk, x, buf)[d[i]].data
  {
    var V := Through(disk, d[|d| - 1], buf);
    assert DataAt(V, d, i) && DataAt(V, d, |d| - 1);
    assert PrevOf(d + [y], i) == PrevOf(d, i);
    if i < |d| - 1 {
      assert NextOf(d + [y], i) == NextOf(d, i);
      assert d[i] != d[|d| - 1];
    }
  }

  /** A single fresh, zeroed block that is still pending. */
  lemma FirstPending(disk: seq<Block>, x: nat)
    requires Usable(x, |disk|)
    ensures DataChain(Through(disk, x, DataBlk(0, 0, Zeros(DATA_LEN))), [x])
    ensures Flat(Through(disk, x, DataBlk(0, 0, Zeros(DATA_LEN))), [x]) == Zeros(DATA_LEN)
  {
    var V := Through(disk, x, DataBlk(0, 0, Zeros(DATA_LEN)));
    assert DataAt(V, [x], 0);
  }

  /** d is c with fresh blocks behind it. `now` arose from `was` by taking these blocks and by
      writing blocks of d only; V is the disk seen through the buffer. */
  ghost predicate Grown(was: Snapshot, c: seq<nat>, now: Snapshot, V: seq<Block>, d: seq<nat>)
  {
    && |c| <= |d| && d[..|c|] == c
    && DataChain(V, d) && |V| == |was.disk|
    && SameOutside(was.disk, now.disk, Elems(d))
    && now.marked == was.marked + Elems(d)
    && (forall i :: |c| <= i < |d| ==> d[i] !in was.marked)
  }

  /** ... and the fresh blocks hold zeros, while the old bytes are unchanged. */
  ghost predicate Extends(was: Snapshot, c: seq<nat>, now: Snapshot, V: seq<Block>, d: seq<nat>)
    requires DataChain(was.disk, c)
  {
    Grown(was, c, now, V, d) && Flat(V, d) == Flat(was.disk, c) + Zeros(DATA_LEN * (|d| - |c|))
  }

  lemma ExtendsRefl(was: Snapshot, c: seq<nat>)
    requires DataChain(was.disk, c) && Elems(c) <= was.marked
    ensures Extends(was, c, was, was.disk, c)
  {
  }

  /** The step of an append loop: a fresh block y follows the pending one. */
  lemma GrownStep(was: Snapshot, c: seq<nat>, now: Snapshot, d: seq<nat>, buf: Block, mid: Snapshot, y: nat)
    requires d != [] && d[|d| - 1] < |now.disk|
    requires Grown(was, c, now, Through(now.disk, d[|d| - 1], buf), d)
    requires SameContents(now.disk, mid.disk) && Usable(y, |now.disk|) && y !in now.marked
    requires mid.marked == now.marked + {y}
    ensures var x := d[|d| - 1];
      var now' := Snapshot(Through(mid.disk, x, buf.WithNext(y)), mid.marked);
      var V' := Through(now'.disk, y, DataBlk(x, 0, Zeros(DATA_LEN)));
      Grown(was, c, now', V', d + [y]) && Flat(V', d + [y]) == Flat(Through(now.disk, x, buf), d) + Zeros(DATA_LEN)
  {
    hide DataChain, Flat, SameContents, Usable;
    var x := d[|d| - 1];
    var disk' := Through(mid.disk, x, buf.WithNext(y));
    var d' := d + [y];
    assert Elems(d') == Elems(d) + {y};
    assert x in Elems(d) && y !in Elems(d);
    GrowPending(now.disk, mid.disk, d, buf, y);
    ContentsSize(now.disk, mid.disk);
    GrowOutside(was.disk, now.disk, mid.disk, Elems(d), x, buf.WithNext(y), y);
    assert d'[..|c|] == d[..|c|];
  }

  lemma ExtendStep(was: Snapshot, c: seq<nat>, now: Snapshot, d: seq<nat>, buf: Block, mid: Snapshot, y: nat)
    requires DataChain(was.disk, c) && d != [] && d[|d| - 1] < |now.disk|
    requires Extends(was, c, now, Through(now.disk, d[|d| - 1], buf), d)
    requires SameContents(now.disk, mid.disk) && Usable(y, |now.disk|) && y !in now.marked
    requires mid.marked == now.marked + {y}
    ensures var x := d[|d| - 1];
      var now' := Snapshot(Through(mid.disk, x, buf.WithNext(y)), mid.marked);
      Extends(was, c, now', Through(now'.disk, y, DataBlk(x, 0, Zeros(DATA_LEN))), d + [y])
  {
    hide Grown, DataChain, Flat, SameContents, Usable;
    GrownStep(was, c, now, d, buf, mid, y);
    GrownLen(was, c, now, Through(now.disk, d[|d| - 1], buf), d);
    ZerosJoin(DATA_LEN * (|d| - |c|), DATA_LEN);
  }

  lemma GrownLen(was: Snapshot, c: seq<nat>, now: Snapshot, V: seq<Block>, d: seq<nat>)
    requires Grown(was, c, now, V, d)
    ensures |c| <= |d| && d[..|c|] == c && DataChain(V, d) && |V| == |was.disk| == |now.disk| && Elems(d) <= now.marked
    ensures forall i :: 0 <= i < |d| ==> d[i] < |V| && Usable(d[i], |V|)
  {
    forall i | 0 <= i < |d| ensures d[i] < |V| && Usable(d[i], |V|) {
      assert DataAt(V, d, i);
    }
  }

  /** The fresh blocks of a grown chain come out of the free blocks. */
  lemma GrownFree(was: Snapshot, c: seq<nat>, now: Snapshot, V: seq<Block>, d: seq<nat>)
    requires Grown(was, c, now, V, d) && Elems(c) <= was.marked
    ensures |FreeOf(now)| + |d| == |FreeOf(was)| + |c|
  {
    hide DataChain, FreeOf, SameOutside, Usable;
    var more := d[|c|..];
    GrownLen(was, c, now, V, d);
    GrownDistinct(V, d, |c|);
    DistinctCard(more);
    FreshElems(c, d);
    FreeSplit(was, now, Elems(more));
  }

  lemma GrownDistinct(V: seq<Block>, d: seq<nat>, k: nat)
    requires DataChain(V, d) && k <= |d|
    ensures Distinct(d[k..])
  {
  }

  lemma FreeSplit(was: Snapshot, now: Snapshot, more: set<nat>)
    requires |was.disk| == |now.disk| && now.marked == was.marked + more
    requires more !! was.marked && forall b :: b in more ==> b < |was.disk|
    ensures |FreeOf(was)| == |FreeOf(now)| + |more|
  {
    assert FreeOf(was) == FreeOf(now) + more && FreeOf(now) !! more;
  }

  lemma FreshElems(c: seq<nat>, d: seq<nat>)
    requires |c| <= |d| && d[..|c|] == c
    ensures Elems(d) == Elems(c) + Elems(d[|c|..])
    ensures forall b :: b in Elems(d[|c|..]) ==> exists i :: |c| <= i < |d| && d[i] == b
  {
    assert d == c + d[|c|..];
    forall b | b in Elems(d[|c|..]) ensures exists i :: |c| <= i < |d| && d[i] == b {
      var i :| 0 <= i < |d| - |c| && d[|c|..][i] == b;
      assert d[|c| + i] == b;
    }
  }

  lemma GrowOutside(a: seq<Block>, b: seq<Block>, m: seq<Block>, s: set<nat>, x: nat, blk: Block, y: nat)
    requires SameOutside(a, b, s) && SameContents(b, m) && x in s && x < |b|
    ensures SameOutside(a, Through(m, x, blk), s + {y}) && SameOutside(a, Through(m, x, blk), s)
  {
  }

  /** The buffered block is written: the chain is then as it was seen through the buffer. */
  lemma GrownWritten(was: Snapshot, c: seq<nat>, now: Snapshot, d: seq<nat>, x: nat, buf: Block, mid: Snapshot)
    requires x in d && x < |now.disk|
    requires Grown(was, c, now, Through(now.disk, x, buf), d)
    requires SameContents(now.disk, mid.disk) && mid.marked == now.marked
    ensures var now' := Snapshot(Through(mid.disk, x, buf), mid.marked);
      Grown(was, c, now', now'.disk, d) && Flat(now'.disk, d) == Flat(Through(now.disk, x, buf), d)
  {
    var V, V' := Through(now.disk, x, buf), Through(mid.disk, x, buf);
    assert x in Elems(d);
    GrowOutside(was.disk, now.disk, mid.disk, Elems(d), x, buf, x);
    forall i | 0 <= i < |d| ensures d[i] < |V| && V'[d[i]] == V[d[i]] {
      assert DataAt(V, d, i);
    }
    FrameData(V, V', d);
  }

  // ----- the cursor -----

  /** The cursor is unset, or names a block of the chain and that block's byte position. */
  ghost predicate CursorOk(c: seq<nat>, blk: nat, pos: nat)
  {
    blk == 0 || exists i :: 0 <= i < |c| && c[i] == blk && pos == DATA_LEN * i
  }

  /** Handle h was opened on the file with chain c, and its cursor may stand anywhere in it. */
  ghost predicate Tracks(g: Fs, h: Handle, c: seq<nat>)
    reads g`disk, g`marked, g`lastBitmapBlk, g`lastBitmapLen, g`loadedBitmapBlk, g.bitmap
    reads h`firstBlk, h`currBlk, h`currPos
  {
    && g.Coherent() && g.HomesMarked() && Elems(c) <= g.marked
    && DataChain(g.disk, c) && h.firstBlk == HeadOf(c) && CursorOk(c, h.currBlk, h.currPos)
  }

  method InitPos(h: Handle)
    modifies h`currBlk, h`currPos
    ensures h.currBlk == h.firstBlk && h.currPos == 0
  {
    h.currBlk := h.firstBlk;
    h.currPos := 0;
  }

  lemma CursorStart(disk: seq<Block>, c: seq<nat>)
    requires DataChain(disk, c)
    ensures CursorOk(c, HeadOf(c), 0)
    ensures c != [] ==> c[0] != 0
  {
    if c != [] {
      assert c[0] == HeadOf(c);
      LinkFacts(disk, c, 0);
    }
  }

  /** The loop test of seek, (curr_pos + 504) <= pos in 32-bit arithmetic, tells for every block up
      to the one of pos whether it lies before it, if and only if pos is below the limit. */
  lemma SeekTestExact(pos: nat)
    requires pos < LIMIT
    ensures (forall i: nat :: DATA_LEN * i <= pos ==>
        ((DATA_LEN * i + DATA_LEN) % LIMIT <= pos <==> DATA_LEN * i + DATA_LEN <= pos)) <==> pos < 0xffff_ff00
  {
    if pos < SEEK_LIMIT {
      forall i: nat | DATA_LEN * i <= pos ensures DATA_LEN * i + DATA_LEN < LIMIT {
      }
    } else {
      var i := SEEK_LIMIT / DATA_LEN;
      assert DATA_LEN * i == SEEK_LIMIT && (DATA_LEN * i + DATA_LEN) % LIMIT == SEEK_LIMIT + DATA_LEN - LIMIT;
    }
  }

  /** For a chain that can have at most `blocks` blocks the 32-bit test of seek is right: the
      position is below the limit, or the chain ends before the test can wrap around. */
  predicate Fits32(pos: nat, blocks: nat)
  {
    pos < SEEK_LIMIT || (pos < LIMIT && DATA_LEN * blocks <= SEEK_LIMIT)
  }

  /** For 32-bit positions it says just that: the test is right for every block there can be. */
  lemma FitsExact(pos: nat, blocks: nat)
    requires pos < LIMIT
    ensures Fits32(pos, blocks) <==>
      forall i: nat :: i < blocks && DATA_LEN * i <= pos ==>
        ((DATA_LEN * i + DATA_LEN) % LIMIT <= pos <==> DATA_LEN * i + DATA_LEN <= pos)
  {
    if Fits32(pos, blocks) {
      forall i: nat | i < blocks && DATA_LEN * i <= pos
        ensures (DATA_LEN * i + DATA_LEN) % LIMIT <= pos <==> DATA_LEN * i + DATA_LEN <= pos
      {
        TestFits(pos, blocks, i);
      }
    } else {
      var i := SEEK_LIMIT / DATA_LEN;
      assert DATA_LEN * i == SEEK_LIMIT && (DATA_LEN * i + DATA_LEN) % LIMIT == SEEK_LIMIT + DATA_LEN - LIMIT;
      assert i < blocks && DATA_LEN * i <= pos;
    }
  }

  lemma TestFits(pos: nat, blocks: nat, i: nat)
    requires Fits32(pos, blocks) && i < blocks && DATA_LEN * i <= pos
    ensures (DATA_LEN * i + DATA_LEN) % LIMIT <= pos <==> DATA_LEN * i + DATA_LEN <= pos
    ensures DATA_LEN * i + DATA_LEN < LIMIT
  {
    assert DATA_LEN * i + DATA_LEN < LIMIT;
  }

  /** Walks back to a block that does not lie behind pos. */
  method SeekBack(g: Fs, h: Handle, pos: nat, ghost c: seq<nat>, ghost i0: nat) returns (ghost i: nat)
    requires DataChain(g.disk, c) && i0 < |c| && h.currBlk == c[i0] && h.currPos == DATA_LEN * i0
    modifies g`buf, h`currBlk, h`currPos
    ensures i <= i0 && h.currBlk == c[i] && h.currPos == DATA_LEN * i <= pos
    ensures i == i0 || pos < DATA_LEN * i + DATA_LEN
  {
    i := i0;
    LinkFacts(g.disk, c, i);
    while h.currBlk != 0 && h.currPos > pos
      invariant i <= i0 && h.currBlk == c[i] != 0 && h.currPos == DATA_LEN * i
      invariant i == i0 || pos < DATA_LEN * i + DATA_LEN
      decreases i
    {
      LinkFacts(g.disk, c, i);
      g.buf := g.ReadBlock(h.currBlk);
      h.currBlk := g.buf.prev;
      h.currPos := h.currPos - DATA_LEN;
      i := i - 1;
      LinkFacts(g.disk, c, i);
    }
  }

  /** Walks forward to the block that contains pos, or off the end of the chain. */
  method SeekForward(g: Fs, h: Handle, pos: nat, ghost c: seq<nat>, ghost i0: nat)
      returns (lastBlk: nat, lastPos: nat, ghost i: nat)
    requires DataChain(g.disk, c) && i0 < |c| && h.currBlk == c[i0] && h.currPos == DATA_LEN * i0 <= pos
    requires Fits32(pos, |c|)
    modifies g`buf, h`currBlk, h`currPos
    ensures i0 <= i <= |c| && h.currPos == DATA_LEN * i <= pos
    ensures i < |c| ==> h.currBlk == c[i] != 0 && pos < DATA_LEN * i + DATA_LEN
    ensures i == |c| ==> h.currBlk == 0 && lastPos == DATA_LEN * (|c| - 1)
    ensures i == |c| ==> lastBlk == c[|c| - 1] < |g.disk| && g.buf == g.disk[lastBlk]
  {
    lastBlk, lastPos, i := 0, 0, i0;
    LinkFacts(g.disk, c, i);
    TestFits(pos, |c|, i);
    while h.currBlk != 0 && (h.currPos + DATA_LEN) % LIMIT <= pos
      invariant i0 <= i <= |c| && h.currPos == DATA_LEN * i <= pos
      invariant i < |c| ==> h.currBlk == c[i] != 0
      invariant i < |c| ==> ((DATA_LEN * i + DATA_LEN) % LIMIT <= pos <==> DATA_LEN * i + DATA_LEN <= pos)
      invariant i == |c| ==> h.currBlk == 0 && lastPos == DATA_LEN * (|c| - 1)
      invariant i == |c| ==> lastBlk == c[|c| - 1] < |g.disk| && g.buf == g.disk[lastBlk]
      decreases |c| - i
    {
      LinkFacts(g.disk, c, i);
      g.buf := g.ReadBlock(h.currBlk);
      lastBlk, lastPos := h.currBlk, h.currPos;
      h.currBlk := g.buf.next;
      h.currPos := h.currPos + DATA_LEN;
      i := i + 1;
      if i < |c| {
        LinkFacts(g.disk, c, i);
        TestFits(pos, |c|, i);
      }
    }
  }

  /** The buffer holds the still unwritten last block of d, and the cursor stands there. */
  ghost predicate AtPending(g: Fs, h: Handle, d: seq<nat>)
    reads g`disk, g`buf, h`firstBlk, h`currBlk, h`currPos
  {
    && d != [] && h.firstBlk == d[0] && h.currBlk == d[|d| - 1] < |g.disk| && h.currPos == DATA_LEN * (|d| - 1)
    && g.buf.DataBlk? && |g.buf.data| == DATA_LEN && g.buf.prev == PrevOf(d, |d| - 1) && g.buf.next == 0
  }

  ghost function Now(g: Fs): Snapshot
    reads g`disk, g`marked
  {
    Snapshot(g.disk, g.marked)
  }

  /** One round of the append loop of seek. */
  method AppendOne(g: Fs, h: Handle, ghost was: Snapshot, ghost c: seq<nat>, ghost d: seq<nat>)
      returns (ghost d': seq<nat>)
    requires g.Coherent() && g.HomesMarked() && g.err == None && AtPending(g, h, d) && DataChain(was.disk, c)
    requires Extends(was, c, Now(g), Through(g.disk, h.currBlk, g.buf), d)
    modifies g`disk, g`marked, g`err, g`loadedBitmapBlk, g`buf, g.bitmap, h`currBlk, h`currPos
    ensures g.Coherent() && g.HomesMarked()
    ensures g.err == if old(g.Full()) then DiskFull else None
    ensures g.err == DiskFull ==> d' == d && Extends(was, c, Now(g), g.disk, d) && g.Full()
    ensures g.err == DiskFull ==> h.currBlk == old(h.currBlk) && h.currPos == old(h.currPos)
    ensures g.err == None ==> |d'| == |d| + 1 && d'[..|d|] == d && AtPending(g, h, d')
    ensures g.err == None ==> Extends(was, c, Now(g), Through(g.disk, h.currBlk, g.buf), d')
    ensures g.err == None ==> Unwritten(was, Now(g), h.currBlk)
  {
    hide Grown, BitmapsOn, MarkedOn, Usable, DataAt, Distinct, Flat, Elems;
    ghost var now, x := Now(g), h.currBlk;
    ExtendsFacts(was, c, now, Through(g.disk, x, g.buf), d, |d| - 1);
    FreshUsable(g);
    var y := AllocBlock(g);
    ghost var mid := Now(g);
    var buf := g.buf;
    g.buf := g.buf.WithNext(y);
    g.WriteBlock(h.currBlk, g.buf);
    if g.err != None {
      GrownWritten(was, c, now, d, x, buf, mid);
      return d;
    }
    ExtendStep(was, c, now, d, buf, mid, y);
    FreshUnwritten(was, c, now, Through(now.disk, x, buf), d, mid, y);
    g.buf := DataBlk(h.currBlk, 0, Zeros(DATA_LEN));
    h.currBlk := y;
    h.currPos := h.currPos + DATA_LEN;
    d' := d + [y];
  }

  /** Block y of the drive holds what it held before. */
  ghost predicate Unwritten(was: Snapshot, now: Snapshot, y: nat)
  {
    |now.disk| == |was.disk| && (y < |was.disk| ==> now.disk[y] == was.disk[y])
  }

  lemma FreshUnwritten(was: Snapshot, c: seq<nat>, now: Snapshot, V: seq<Block>, d: seq<nat>, mid: Snapshot, y: nat)
    requires Grown(was, c, now, V, d) && SameContents(now.disk, mid.disk)
    requires Usable(y, |now.disk|) && y !in now.marked
    ensures Unwritten(was, mid, y)
  {
  }

  lemma ExtendsFacts(was: Snapshot, c: seq<nat>, now: Snapshot, V: seq<Block>, d: seq<nat>, i: nat)
    requires DataChain(was.disk, c) && Extends(was, c, now, V, d) && i < |d|
    ensures Usable(d[i], |was.disk|) && |now.disk| == |was.disk| && d[i] in now.marked && d[i] < |was.disk|
    ensures DataChain(V, d) && Elems(d) <= now.marked
  {
    assert DataAt(V, d, i) && d[i] in Elems(d);
  }

  /** The append loop of seek: fresh blocks are linked until the block of pos is pending. */
  method AppendBlocks(g: Fs, h: Handle, pos: nat, ghost was: Snapshot, ghost c: seq<nat>, ghost d0: seq<nat>)
      returns (ok: bool, ghost d: seq<nat>)
    requires g.Coherent() && g.HomesMarked() && g.err == None && AtPending(g, h, d0) && h.currPos <= pos
    requires DataChain(was.disk, c) && Extends(was, c, Now(g), Through(g.disk, h.currBlk, g.buf), d0)
    requires Unwritten(was, Now(g), h.currBlk)
    requires Elems(c) <= was.marked && Fits32(pos, |c| + |FreeOf(was)|)
    modifies g`disk, g`marked, g`err, g`loadedBitmapBlk, g`buf, g.bitmap, h`currBlk, h`currPos
    ensures g.Coherent() && g.HomesMarked() && d != [] && h.firstBlk == d[0]
    ensures ok <==> g.err == None
    ensures ok ==> AtPending(g, h, d) && |d| == pos / DATA_LEN + 1
    ensures ok ==> Extends(was, c, Now(g), Through(g.disk, h.currBlk, g.buf), d) && Unwritten(was, Now(g), h.currBlk)
    ensures !ok ==> g.err == DiskFull && g.Full() && Extends(was, c, Now(g), g.disk, d) && |d| <= pos / DATA_LEN
    ensures !ok ==> h.currBlk == d[|d| - 1] && h.currPos == DATA_LEN * (|d| - 1)
  {
    hide Extends, BitmapsOn, MarkedOn, Usable, FreeOf, Fits32;
    d := d0;
    AppendTest(g, h, was, c, d, pos);
    while (h.currPos + DATA_LEN) % LIMIT <= pos
      invariant g.Coherent() && g.HomesMarked() && g.err == None && AtPending(g, h, d) && h.currPos <= pos
      invariant Extends(was, c, Now(g), Through(g.disk, h.currBlk, g.buf), d) && Unwritten(was, Now(g), h.currBlk)
      invariant (h.currPos + DATA_LEN) % LIMIT <= pos <==> h.currPos + DATA_LEN <= pos
      decreases pos - h.currPos
    {
      ghost var d' := AppendOne(g, h, was, c, d);
      if g.err != None {
        return false, d;
      }
      d := d';
      AppendTest(g, h, was, c, d, pos);
    }
    return true, d;
  }

  lemma AppendTest(g: Fs, h: Handle, was: Snapshot, c: seq<nat>, d: seq<nat>, pos: nat)
    requires DataChain(was.disk, c) && Extends(was, c, Now(g), Through(g.disk, h.currBlk, g.buf), d)
    requires AtPending(g, h, d)
    requires Elems(c) <= was.marked && Fits32(pos, |c| + |FreeOf(was)|) && h.currPos <= pos
    ensures (h.currPos + DATA_LEN) % LIMIT <= pos <==> h.currPos + DATA_LEN <= pos
  {
    GrownFree(was, c, Now(g), Through(g.disk, h.currBlk, g.buf), d);
    TestFits(pos, |c| + |FreeOf(was)|, |d| - 1);
  }

  /** A file without blocks gets its first one, zeroed and pending. */
  method AppendFirst(g: Fs, h: Handle) returns (ghost d: seq<nat>)
    requires g.Coherent() && g.HomesMarked() && g.err == None && h.firstBlk == 0
    modifies g`disk, g`marked, g`err, g`loadedBitmapBlk, g`buf, g.bitmap, h`firstBlk, h`currBlk, h`currPos
    ensures g.Coherent() && g.HomesMarked()
    ensures g.err == if old(g.Full()) then DiskFull else None
    ensures g.err == DiskFull ==>
      g.Full() && d == [] && h.firstBlk == 0 && g.disk == old(g.disk) && g.marked == old(g.marked)
    ensures g.err == DiskFull ==> h.currBlk == old(h.currBlk) && h.currPos == old(h.currPos)
    ensures g.err == None ==> AtPending(g, h, d) && |d| == 1 && DataChain(old(g.disk), [])
    ensures g.err == None ==> Extends(old(Now(g)), [], Now(g), Through(g.disk, h.currBlk, g.buf), d)
    ensures g.err == None ==> Unwritten(old(Now(g)), Now(g), h.currBlk)
  {
    hide BitmapsOn, MarkedOn, Usable, DataAt;
    ghost var was := Now(g);
    FreshUsable(g);
    h.firstBlk := AllocBlock(g);
    d := [];
    if g.err != None {
      return;
    }
    g.buf := DataBlk(0, 0, Zeros(DATA_LEN));
    InitPos(h);
    d := [h.firstBlk];
    FirstExtends(was, Now(g), h.firstBlk);
  }

  lemma FirstExtends(was: Snapshot, now: Snapshot, x: nat)
    requires SameContents(was.disk, now.disk) && Usable(x, |now.disk|) && x !in was.marked
    requires now.marked == was.marked + {x}
    ensures x < |now.disk| && DataChain(was.disk, []) && Unwritten(was, now, x)
    ensures Extends(was, [], now, Through(now.disk, x, DataBlk(0, 0, Zeros(DATA_LEN))), [x])
  {
    FirstPending(now.disk, x);
    assert Flat(was.disk, []) + Zeros(DATA_LEN) == Zeros(DATA_LEN);
    assert Elems([x]) == {x};
  }

  /** The walking part of seek: to the block that contains pos, or off the end of the chain. */
  method Walk(g: Fs, h: Handle, pos: nat, ghost c: seq<nat>) returns (lastBlk: nat, lastPos: nat)
    requires Tracks(g, h, c) && Fits32(pos, |c|)
    modifies g`buf, h`currBlk, h`currPos
    ensures pos / DATA_LEN < |c| ==> h.currBlk == c[pos / DATA_LEN] != 0 && h.currBlk < |g.disk|
    ensures pos / DATA_LEN < |c| ==> h.currPos == DATA_LEN * (pos / DATA_LEN)
    ensures |c| <= pos / DATA_LEN ==> h.currBlk == 0
    ensures |c| <= pos / DATA_LEN && c != [] ==> lastPos == DATA_LEN * (|c| - 1)
    ensures |c| <= pos / DATA_LEN && c != [] ==> lastBlk == c[|c| - 1] < |g.disk| && g.buf == g.disk[lastBlk]
  {
    hide BitmapsOn, MarkedOn, Usable, DataAt, Distinct, DataChain;
    CursorStart(g.disk, c);
    if pos == 0 || h.currBlk == 0 {
      InitPos(h);
    }
    lastBlk, lastPos := 0, 0;
    if h.currBlk != 0 {
      ghost var i :| 0 <= i < |c| && c[i] == h.currBlk && h.currPos == DATA_LEN * i;
      i := SeekBack(g, h, pos, c, i);
      lastBlk, lastPos, i := SeekForward(g, h, pos, c, i);
      if i < |c| { LinkFacts(g.disk, c, i); }
    }
  }

  /** The appending part of seek, after the cursor ran off the end of the chain. */
  method Lengthen(g: Fs, h: Handle, pos: nat, lastBlk: nat, lastPos: nat, ghost c: seq<nat>)
      returns (ok: bool, ghost d: seq<nat>)
    requires Tracks(g, h, c) && g.err == None && |c| <= pos / DATA_LEN && h.currBlk == 0
    requires Fits32(pos, |c| + |FreeOf(Now(g))|)
    requires c != [] ==> lastPos == DATA_LEN * (|c| - 1)
    requires c != [] ==> lastBlk == c[|c| - 1] < |g.disk| && g.buf == g.disk[lastBlk]
    modifies g`disk, g`marked, g`err, g`loadedBitmapBlk, g`buf, g.bitmap, h`firstBlk, h`currBlk, h`currPos
    ensures g.Coherent() && g.HomesMarked() && h.firstBlk == HeadOf(d)
    ensures Extends(old(Now(g)), c, Now(g), if ok then Through(g.disk, h.currBlk, g.buf) else g.disk, d)
    ensures ok ==> g.err == None && AtPending(g, h, d) && |d| == pos / DATA_LEN + 1
    ensures ok ==> Unwritten(old(Now(g)), Now(g), h.currBlk)
    ensures !ok ==> g.err == DiskFull && g.Full() && |d| <= pos / DATA_LEN && CursorOk(d, h.currBlk, h.currPos)
  {
    hide Extends, BitmapsOn, MarkedOn, Usable, DataAt, Distinct;
    ghost var was := Now(g);
    ExtendsRefl(was, c);
    CursorStart(g.disk, c);
    d := c;
    var last, lastAt := lastBlk, lastPos;
    if h.firstBlk == 0 {
      d := AppendFirst(g, h);
      if g.err != None {
        return false, c;
      }
      last, lastAt := h.currBlk, h.currPos;
    } else {
      LinkFacts(g.disk, c, |c| - 1);
      assert Through(g.disk, last, g.buf) == g.disk;
    }
    h.currBlk, h.currPos := last, lastAt;
    ok, d := AppendBlocks(g, h, pos, was, c, d);
  }

  /** seek. Without append it only moves the cursor. With append it makes the chain just long
      enough for pos; then the last block is pending in the buffer. */
  method Seek(g: Fs, h: Handle, pos: nat, append: bool, ghost c: seq<nat>) returns (res: SeekResult, ghost d: seq<nat>)
    requires Tracks(g, h, c) && g.err == None && Fits32(pos, |c| + if append then |FreeOf(Now(g))| else 0)
    modifies g`disk, g`marked, g`err, g`loadedBitmapBlk, g`buf, g.bitmap, h`firstBlk, h`currBlk, h`currPos
    ensures g.Coherent() && g.HomesMarked() && h.firstBlk == HeadOf(d)
    ensures Extends(old(Now(g)), c, Now(g), if res == SeekAppend then Through(g.disk, h.currBlk, g.buf) else g.disk, d)
    ensures res == (if pos / DATA_LEN < |c| then SeekOk else if !append then SeekEof
                    else if g.err == None then SeekAppend else SeekError)
    ensures res.SeekOk? || res.SeekEof? ==>
      g.err == None && d == c && g.disk == old(g.disk) && g.marked == old(g.marked)
    ensures res.SeekOk? ==>
      && h.currBlk == c[pos / DATA_LEN] < |g.disk| && h.currPos == DATA_LEN * (pos / DATA_LEN)
      && g.buf == g.disk[h.currBlk]
    ensures res.SeekEof? ==> CursorOk(c, h.currBlk, h.currPos)
    ensures res.SeekAppend? ==> AtPending(g, h, d) && |d| == pos / DATA_LEN + 1
    ensures res.SeekAppend? ==> Unwritten(old(Now(g)), Now(g), h.currBlk)
    ensures res.SeekError? ==>
      g.err == DiskFull && g.Full() && |d| <= pos / DATA_LEN && CursorOk(d, h.currBlk, h.currPos)
  {
    hide Extends, BitmapsOn, MarkedOn, Usable, DataAt, Distinct;
    ExtendsRefl(Now(g), c);
    d := c;
    var lastBlk, lastPos := Walk(g, h, pos, c);
    if h.currBlk != 0 {
      g.buf := g.ReadBlock(h.currBlk);
      return SeekOk, c;
    }
    if !append {
      return SeekEof, c;
    }
    var ok;
    ok, d := Lengthen(g, h, pos, lastBlk, lastPos, c);
    res := if ok then SeekAppend else SeekError;
  }
}
