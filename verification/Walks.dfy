/** The block loop of tfs_read_file, on whatever it meets: it follows the next words of blocks of any
    kind, and copies the rest of each block. */
module Walks {
  import opened Layout
  import opened Volume
  import opened Chains

  // ----- blocks as bytes -----

  /** The little-endian 32-bit word at offset i. */
  function Word(bytes: seq<bv8>, i: nat): nat
    requires i + 4 <= |bytes|
  {
    (bytes[i] as nat) + 0x100 * (bytes[i + 1] as nat)
    + 0x1_0000 * (bytes[i + 2] as nat) + 0x100_0000 * (bytes[i + 3] as nat)
  }

  function Byte(n: nat): bv8 { (n % 0x100) as bv8 }

  function WordBytes(n: nat): (r: seq<bv8>)
    ensures |r| == 4
  {
    [Byte(n), Byte(n / 0x100), Byte(n / 0x1_0000), Byte(n / 0x100_0000)]
  }

  /** A directory item as TFS_DIR_ITEM lays it out. */
  function ItemBytes(it: Item): (r: seq<bv8>)
    ensures |r| == 9 + |it.name|
  {
    WordBytes(it.blk) + WordBytes(it.size) + [match it.typ case Free => 0 case Dir => 1 case File => 2]
    + seq(|it.name|, i requires 0 <= i < |it.name| => Byte(it.name[i] as int))
  }

  function ItemsBytes(items: seq<Item>): seq<bv8>
  {
    if items == [] then [] else ItemBytes(items[0]) + ItemsBytes(items[1..])
  }

  /** Exactly n bytes. */
  function Sized(bytes: seq<bv8>, n: nat): (r: seq<bv8>)
    ensures |r| == n && (|bytes| == n ==> r == bytes)
  {
    if |bytes| >= n then bytes[..n] else bytes + Zeros(n - |bytes|)
  }

  /** The word where a data block keeps `next`. */
  function NextWord(b: Block): nat
  {
    match b
    case Raw(bytes) => if |bytes| >= 8 then Word(bytes, 4) else 0
    case DirBlk(_, next, _, _) => next
    case DataBlk(_, next, _) => next
  }

  /** The bytes where a data block keeps its data. */
  function Payload(b: Block): (r: seq<bv8>)
    ensures |r| == DATA_LEN && (b.DataBlk? && |b.data| == DATA_LEN ==> r == b.data)
  {
    match b
    case Raw(bytes) => Sized(if |bytes| >= 8 then bytes[8..] else [], DATA_LEN)
    case DirBlk(_, _, parent, items) => Sized(WordBytes(parent) + ItemsBytes(items), DATA_LEN)
    case DataBlk(_, _, data) => Sized(data, DATA_LEN)
  }

  ghost predicate SizedItems(items: seq<Item>)
  {
    forall j :: 0 <= j < |items| ==> |items[j].name| == NAME_LEN
  }

  lemma {:induction false} ItemsLength(items: seq<Item>)
    requires SizedItems(items)
    ensures |ItemsBytes(items)| == ITEM_LEN * |items|
  {
    if items == [] {
    } else {
      assert |ItemBytes(items[0])| == ITEM_LEN;
      ItemsLength(items[1..]);
    }
  }

  lemma ByteValue(n: nat)
    ensures Byte(n) as nat == n % 0x100
  {
    SmallByte(n % 0x100);
  }

  lemma SmallByte(m: nat)
    requires m < 0x100
    ensures (m as bv8) as nat == m
  {
  }

  lemma Digits(n: nat)
    requires n < LIMIT
    ensures n == n % 0x100 + 0x100 * (n / 0x100 % 0x100) + 0x1_0000 * (n / 0x1_0000 % 0x100)
      + 0x100_0000 * (n / 0x100_0000 % 0x100)
  {
    var a, b, c := n / 0x100, n / 0x1_0000, n / 0x100_0000;
    assert b == a / 0x100 && c == b / 0x100 && c < 0x100;
  }

  /** A word is read as it was written. */
  lemma WordRead(n: nat)
    requires n < LIMIT
    ensures Word(WordBytes(n), 0) == n
  {
    hide Byte;
    ByteValue(n);
    ByteValue(n / 0x100);
    ByteValue(n / 0x1_0000);
    ByteValue(n / 0x100_0000);
    Digits(n);
  }

  lemma WordAt(n: nat, bytes: seq<bv8>, i: nat)
    requires n < LIMIT && i + 4 <= |bytes| && bytes[i..i + 4] == WordBytes(n)
    ensures Word(bytes, i) == n
  {
    hide WordBytes;
    WordRead(n);
    var w := bytes[i..i + 4];
    assert w[0] == bytes[i] && w[1] == bytes[i + 1] && w[2] == bytes[i + 2] && w[3] == bytes[i + 3];
  }

  /** Where TFS_DIR_ITEM keeps its fields. */
  lemma ItemLayout(it: Item)
    requires it.blk < LIMIT && it.size < LIMIT && |it.name| == NAME_LEN
    ensures var b := ItemBytes(it);
      && |b| == ITEM_LEN && Word(b, 0) == it.blk && Word(b, 4) == it.size
      && b[8] == (match it.typ case Free => 0 case Dir => 1 case File => 2)
      && forall i :: 0 <= i < NAME_LEN ==> b[9 + i] as int == it.name[i] as int % 0x100
  {
    hide WordBytes, Byte, Word;
    var b := ItemBytes(it);
    assert b[0..4] == WordBytes(it.blk) && b[4..8] == WordBytes(it.size);
    WordAt(it.blk, b, 0);
    WordAt(it.size, b, 4);
    forall i | 0 <= i < NAME_LEN ensures b[9 + i] as int == it.name[i] as int % 0x100 {
      ByteValue(it.name[i] as int);
    }
  }

  lemma {:induction false} ItemsAt(items: seq<Item>, k: nat)
    requires SizedItems(items) && k < |items|
    ensures ITEM_LEN * k + ITEM_LEN <= |ItemsBytes(items)|
    ensures ItemsBytes(items)[ITEM_LEN * k..ITEM_LEN * k + ITEM_LEN] == ItemBytes(items[k])
  {
    hide ItemBytes;
    ItemsLength(items);
    ItemsLength(items[1..]);
    if k > 0 {
      ItemsAt(items[1..], k - 1);
    }
  }

  /** A directory block fills its 512 bytes: the links, the parent, and twenty items side by side. */
  lemma DirLayout(b: Block, k: nat)
    requires b.DirBlk? && b.parent < LIMIT && |b.items| == DIR_ITEMS && SizedItems(b.items) && k < DIR_ITEMS
    ensures 8 + |WordBytes(b.parent)| + |ItemsBytes(b.items)| == BLOCK_SIZE && 8 + DATA_LEN == BLOCK_SIZE
    ensures Word(Payload(b), 0) == b.parent
    ensures Payload(b)[4 + ITEM_LEN * k..4 + ITEM_LEN * k + ITEM_LEN] == ItemBytes(b.items[k])
  {
    ItemsLength(b.items);
    ItemsAt(b.items, k);
    WordRead(b.parent);
  }

  // ----- walks -----

  /** The blocks that the loop reads one after the other. */
  ghost predicate Walk(disk: seq<Block>, w: seq<nat>)
  {
    && w != [] && (forall i :: 0 <= i < |w| ==> w[i] < |disk|)
    && forall i :: 0 < i < |w| ==> w[i] != 0 && w[i] == NextWord(disk[w[i - 1]])
  }

  ghost function LastNext(disk: seq<Block>, w: seq<nat>): nat
    requires Walk(disk, w)
  {
    NextWord(disk[w[|w| - 1]])
  }

  /** The loop that starts at block `first` reads w and then ends: at a next word 0, or with an I/O
      error at a number past the end of the drive. */
  ghost predicate WalkEnds(disk: seq<Block>, w: seq<nat>, first: nat)
  {
    Walk(disk, w) && w[0] == first && (LastNext(disk, w) == 0 || LastNext(disk, w) >= |disk|)
  }

  ghost function WalkBytes(disk: seq<Block>, w: seq<nat>): (r: seq<bv8>)
    requires forall i :: 0 <= i < |w| ==> w[i] < |disk|
    ensures |r| == DATA_LEN * |w|
  {
    if w == [] then [] else WalkBytes(disk, w[..|w| - 1]) + Payload(disk[w[|w| - 1]])
  }

  /** Block i of a walk accounts for the i-th run of 504 bytes. */
  lemma {:induction false} WalkBytesAt(disk: seq<Block>, w: seq<nat>, i: nat)
    requires (forall j :: 0 <= j < |w| ==> w[j] < |disk|) && i < |w|
    ensures WalkBytes(disk, w)[DATA_LEN * i..DATA_LEN * (i + 1)] == Payload(disk[w[i]])
  {
    hide Payload;
    var v := w[..|w| - 1];
    if i == |v| {
    } else {
      WalkBytesAt(disk, v, i);
      assert WalkBytes(disk, w)[DATA_LEN * i..DATA_LEN * (i + 1)] ==
          WalkBytes(disk, v)[DATA_LEN * i..DATA_LEN * (i + 1)];
    }
  }

  /** A data chain is a walk that ends at a next word 0, over the bytes of the file. */
  lemma ChainIsWalk(disk: seq<Block>, c: seq<nat>)
    requires DataChain(disk, c) && c != []
    ensures WalkEnds(disk, c, c[0]) && LastNext(disk, c) == 0 && WalkBytes(disk, c) == Flat(disk, c)
  {
    ChainWalks(disk, c);
    var bytes, flat := WalkBytes(disk, c), Flat(disk, c);
    forall x | 0 <= x < |flat| ensures bytes[x] == flat[x] {
      var i := x / DATA_LEN;
      WalkBytesAt(disk, c, i);
      BlockBytes(disk, c, i);
      assert bytes[DATA_LEN * i..DATA_LEN * (i + 1)][x - DATA_LEN * i] ==
          flat[DATA_LEN * i..DATA_LEN * i + DATA_LEN][x - DATA_LEN * i];
    }
  }

  lemma ChainWalks(disk: seq<Block>, c: seq<nat>)
    requires DataChain(disk, c) && c != []
    ensures WalkEnds(disk, c, c[0]) && LastNext(disk, c) == 0
  {
    hide Distinct;
    forall i | 0 <= i < |c|
      ensures c[i] < |disk| && disk[c[i]].DataBlk? && c[i] != 0 && disk[c[i]].next == NextOf(c, i)
    {
      assert DataAt(disk, c, i);
    }
  }

  /** The loop ends if and only if it never comes back to a block. */
  lemma EndsUnlessRepeated(disk: seq<Block>, first: nat)
    requires first < |disk|
    ensures (exists w :: WalkEnds(disk, w, first)) <==> forall w :: Walk(disk, w) && w[0] == first ==> Distinct(w)
  {
    forall w, v | WalkEnds(disk, w, first) && Walk(disk, v) && v[0] == first ensures Distinct(v) {
      NoRepeat(disk, w, v);
    }
    if forall w :: Walk(disk, w) && w[0] == first ==> Distinct(w) {
      assert Walk(disk, [first]);
      var w := LongWalk(disk, [first]);
    }
  }

  /** All walks from the same block agree as far as they both go. */
  lemma {:induction false} SameWalk(disk: seq<Block>, w: seq<nat>, v: seq<nat>, i: nat)
    requires Walk(disk, w) && Walk(disk, v) && w[0] == v[0] && i < |w| && i < |v|
    ensures w[i] == v[i]
  {
    if i == 0 {
    } else {
      SameWalk(disk, w, v, i - 1);
    }
  }

  /** From a repeated block on, the walk repeats itself. */
  lemma {:induction false} Periodic(disk: seq<Block>, w: seq<nat>, i: nat, j: nat, n: nat)
    requires Walk(disk, w) && i < j && j + n < |w| && w[i] == w[j]
    ensures w[i + n] == w[j + n]
  {
    if n == 0 {
    } else {
      Periodic(disk, w, i, j, n - 1);
    }
  }

  lemma Onward(disk: seq<Block>, w: seq<nat>, i: nat)
    requires Walk(disk, w) && i + 1 < |w|
    ensures 0 < NextWord(disk[w[i]]) < |disk|
  {
    assert w[i + 1] == NextWord(disk[w[i]]);
  }

  lemma NoRepeat(disk: seq<Block>, w: seq<nat>, v: seq<nat>)
    requires Walk(disk, v) && WalkEnds(disk, w, v[0])
    ensures |v| <= |w| && Distinct(v)
  {
    if |v| > |w| {
      SameWalk(disk, w, v, |w| - 1);
      Onward(disk, v, |w| - 1);
    }
    forall i, j | 0 <= i < j < |v| ensures v[i] != v[j] {
      if v[i] == v[j] {
        SameWalk(disk, w, v, i);
        SameWalk(disk, w, v, j);
        Periodic(disk, w, i, j, |w| - 1 - j);
        Onward(disk, w, i + (|w| - 1 - j));
      }
    }
  }

  /** What the loop reads is determined by where it starts. */
  lemma OneWalk(disk: seq<Block>, w: seq<nat>, v: seq<nat>)
    requires w != [] && WalkEnds(disk, w, w[0]) && WalkEnds(disk, v, w[0])
    ensures w == v
  {
    NoRepeat(disk, w, v);
    NoRepeat(disk, v, w);
    forall i | 0 <= i < |w| ensures w[i] == v[i] {
      SameWalk(disk, w, v, i);
    }
  }

  /** Without repetition the walk ends after at most as many blocks as the drive has. */
  lemma {:induction false} LongWalk(disk: seq<Block>, v: seq<nat>) returns (w: seq<nat>)
    requires Walk(disk, v) && forall u :: Walk(disk, u) && u[0] == v[0] ==> Distinct(u)
    ensures WalkEnds(disk, w, v[0])
    decreases |disk| - |v|
  {
    var x := LastNext(disk, v);
    DistinctFits(v, |disk|);
    if x == 0 || x >= |disk| {
      return v;
    }
    assert Walk(disk, v + [x]);
    DistinctFits(v + [x], |disk|);
    w := LongWalk(disk, v + [x]);
  }

  lemma DistinctFits(v: seq<nat>, n: nat)
    requires Distinct(v) && forall i :: 0 <= i < |v| ==> v[i] < n
    ensures |v| <= n
  {
    DistinctCard(v);
    var s := Below(n);
    SubsetCard(Elems(v), s);
  }

  lemma {:induction false} Below(n: nat) returns (s: set<nat>)
    ensures |s| == n && forall b: nat :: b in s <==> b < n
  {
    if n == 0 {
      s := {};
    } else {
      s := Below(n - 1);
      s := s + {n - 1};
    }
  }

  // ----- the loop -----

  lemma CopyStep(bytes: seq<bv8>, at: nat, done: nat, n: nat, blk: seq<bv8>)
    requires |blk| == DATA_LEN && at + DATA_LEN <= |bytes| && bytes[at..at + DATA_LEN] == blk
    requires n <= DATA_LEN && done <= at && (n > 0 ==> done == at)
    ensures bytes[..done] + blk[..n] == bytes[..done + n]
  {
    forall x | 0 <= x < n ensures bytes[at + x] == blk[x] {
      assert bytes[at..at + DATA_LEN][x] == blk[x];
    }
  }

  /** The block loop of tfs_read_file: it walks to the end, and copies up to len bytes. */
  method ReadBlocks(g: Fs, first: nat, len: nat, ghost w: seq<nat>) returns (out: seq<bv8>)
    requires g.err == None && WalkEnds(g.disk, w, first)
    modifies g`buf, g`err
    ensures out == WalkBytes(g.disk, w)[..Min(len, DATA_LEN * |w|)]
    ensures g.err == if LastNext(g.disk, w) != 0 then Io else if len <= DATA_LEN * |w| then None else UnexpEof
  {
    hide WalkBytes, NextWord, Payload;
    var pos, rem := first, len;
    ghost var i := 0;
    out := [];
    while true
      invariant i < |w| && pos == w[i] && g.err == None
      invariant |out| + rem == len && |out| == Min(len, DATA_LEN * i)
      invariant out == WalkBytes(g.disk, w)[..|out|]
      decreases |w| - i
    {
      WalkBytesAt(g.disk, w, i);
      g.buf := g.ReadBlock(pos);
      var blkLen := rem;
      if rem > DATA_LEN {
        blkLen := DATA_LEN;
        rem := rem - DATA_LEN;
      } else {
        rem := 0;
      }
      CopyStep(WalkBytes(g.disk, w), DATA_LEN * i, |out|, blkLen, Payload(g.buf));
      out := out + Payload(g.buf)[..blkLen];
      pos := NextWord(g.buf);
      i := i + 1;
      assert i < |w| ==> w[i] == pos;
      if pos == 0 {
        if rem > 0 {
          g.err := UnexpEof;
        }
        return;
      }
      if pos >= |g.disk| {
        g.err := Io;
        return;
      }
    }
  }
}
