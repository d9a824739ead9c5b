/** Open files in the abstract: every file of the volume is a flat byte array, and a file descriptor
    is a seat at one of them. No blocks and no cursors take part. */
module Desks {
  import opened Layout
  import opened Shapes
  import opened Cursor
  import opened RandomAccess

  /** A file: the bytes of its blocks, and the size in its directory item. */
  datatype FlatFile = FlatFile(bytes: seq<bv8>, size: nat)

  /** A file descriptor in use: its file, its own idea of the size, and how often it was opened. */
  datatype Seat = Seat(e: Entry, size: nat, count: nat)

  /** All files of the volume, all file descriptors in use, and the number of free blocks. */
  datatype Desk = Desk(files: map<Entry, FlatFile>, seats: map<nat, Seat>, free: nat)
  {
    predicate Uses(fd: int) { fd in seats.Keys && seats[fd].e in files }

    function FileOf(fd: int): FlatFile
      requires Uses(fd)
    {
      files[seats[fd].e]
    }

    function Blocks(fd: int): nat
      requires Uses(fd)
    {
      |FileOf(fd).bytes| / DATA_LEN
    }

    /** The desk after the file and the size at a seat changed. */
    function With(fd: int, f: FlatFile, size: nat, left: nat): Desk
      requires Uses(fd)
    {
      Desk(files[seats[fd].e := f], seats[fd := seats[fd].(size := size)], left)
    }
  }

  /** The bytes with zeros behind them, up to a length of at least n. */
  function Padded(bytes: seq<bv8>, n: nat): (r: seq<bv8>)
    ensures |r| == Max(|bytes|, n)
    ensures forall i :: 0 <= i < |r| ==> r[i] == if i < |bytes| then bytes[i] else 0
  {
    bytes + Zeros(if |bytes| < n then n - |bytes| else 0)
  }

  // ----- tfs_write -----

  /** Blocks that a file of `have` blocks has after a write. */
  function BlocksAfter(have: nat, offset: nat, len: nat): nat
    requires len > 0
  {
    Max(have, (offset + len - 1) / DATA_LEN + 1)
  }

  predicate WriteFails(k: Desk, fd: int, len: nat, offset: nat)
    requires k.Uses(fd) && len > 0
  {
    BlocksAfter(k.Blocks(fd), offset, len) > k.Blocks(fd) + k.free
  }

  /** How many bytes a write puts in place. */
  function Written(k: Desk, fd: int, len: nat, offset: nat): (n: nat)
    requires k.Uses(fd)
    ensures n <= len
  {
    if len > 0 && WriteFails(k, fd, len, offset)
    then Max(DATA_LEN * (k.Blocks(fd) + k.free), offset) - offset else len
  }

  /** A write extends the file by zero blocks as far as it must and replaces the range. A write
      that runs out of blocks keeps what it wrote, but does not tell the directory item. */
  function AfterWrite(k: Desk, fd: int, data: seq<bv8>, offset: nat): Desk
    requires k.Uses(fd)
  {
    var f, s := k.FileOf(fd), k.seats[fd];
    if data == [] then k
    else if WriteFails(k, fd, |data|, offset) then
      var blocks := k.Blocks(fd) + k.free;
      var bytes := Padded(f.bytes, DATA_LEN * blocks);
      var n := Written(k, fd, |data|, offset);
      var size := if offset < DATA_LEN * (blocks - 1) then Max(s.size, DATA_LEN * (blocks - 1)) else s.size;
      k.With(fd, FlatFile(if n > 0 then Splice(bytes, offset, data[..n]) else bytes, f.size), size, 0)
    else
      var blocks := BlocksAfter(k.Blocks(fd), offset, |data|);
      var size := Max(s.size, offset + |data|);
      var told := k.Blocks(fd) <= offset / DATA_LEN || s.size < offset + |data|;
      k.With(fd, FlatFile(Splice(Padded(f.bytes, DATA_LEN * blocks), offset, data), if told then size else f.size),
             size, k.free - (blocks - k.Blocks(fd)))
  }

  lemma NothingWritten(k: Desk, fd: int, offset: nat)
    requires k.Uses(fd)
    ensures AfterWrite(k, fd, [], offset) == k && Written(k, fd, 0, offset) == 0
  {
  }

  // ----- tfs_trunc -----

  function TruncBlocks(size: nat): nat { if size == 0 then 0 else size / DATA_LEN + 1 }

  predicate TruncFails(k: Desk, fd: int, size: nat)
    requires k.Uses(fd)
  {
    TruncBlocks(size) > k.Blocks(fd) + k.free
  }

  /** Truncating cuts or grows the file to hold position `size`. Only the bytes follow: the size
      in the directory item becomes the one of the seat, which does not change. */
  function AfterTrunc(k: Desk, fd: int, size: nat): Desk
    requires k.Uses(fd)
  {
    var f, s := k.FileOf(fd), k.seats[fd];
    if TruncFails(k, fd, size) then
      k.With(fd, FlatFile(Padded(f.bytes, DATA_LEN * (k.Blocks(fd) + k.free)), f.size), s.size, 0)
    else
      var n := TruncBlocks(size);
      k.With(fd, FlatFile(Padded(f.bytes, DATA_LEN * n)[..DATA_LEN * n], s.size), s.size, k.free + k.Blocks(fd) - n)
  }

  // ----- tfs_open and tfs_close -----

  ghost predicate Seated(k: Desk, e: Entry)
  {
    exists fd :: fd in k.seats && k.seats[fd].e == e
  }

  /** No seat is left. */
  ghost predicate Crowded(k: Desk)
  {
    forall fd: nat :: fd < MAX_FDS ==> fd in k.seats
  }

  /** fd is the descriptor that an open of e gets: the one e has already, or else the lowest one. */
  ghost predicate OpensAs(k: Desk, e: Entry, fd: nat)
  {
    if Seated(k, e) then fd in k.seats && k.seats[fd].e == e
    else fd < MAX_FDS && fd !in k.seats && forall x: nat :: x < fd ==> x in k.seats
  }

  /** Opening once more at 255 wraps the 8-bit count around: the descriptor counts as closed. */
  function AfterOpen(k: Desk, e: Entry, fd: nat): Desk
    requires e in k.files
  {
    if fd !in k.seats then k.(seats := k.seats[fd := Seat(e, k.files[e].size, 1)])
    else if k.seats[fd].count == 255 then k.(seats := k.seats - {fd})
    else k.(seats := k.seats[fd := k.seats[fd].(count := k.seats[fd].count + 1)])
  }

  function AfterClose(k: Desk, fd: nat): Desk
    requires fd in k.seats
  {
    if k.seats[fd].count <= 1 then k.(seats := k.seats - {fd})
    else k.(seats := k.seats[fd := k.seats[fd].(count := k.seats[fd].count - 1)])
  }

  // ----- runs -----

  datatype Call =
    | OpenCall(name: CString)
    | CloseCall(fd: int)
    | WriteCall(fd: int, data: seq<bv8>, offset: nat)
    | ReadCall(fd: int, len: nat, offset: nat)
    | TruncCall(fd: int, size: nat)

  /** What a call gives back: the error, the descriptor of an open, the count of a write, and the
      bytes of a read. */
  datatype Outcome = Outcome(err: Error, fd: int, ret: nat, out: seq<bv8>)

  /** The file descriptor of a call, -1 for an open. */
  function FdOf(c: Call): int
  {
    match c
    case OpenCall(_) => -1
    case CloseCall(fd) => fd
    case WriteCall(fd, _, _) => fd
    case ReadCall(fd, _, _) => fd
    case TruncCall(fd, _) => fd
  }

  /** The call takes the first blocks of a file and then runs out: the blocks are lost to it. */
  predicate Loses(k: Desk, c: Call)
  {
    match c
    case WriteCall(fd, data, offset) =>
      k.Uses(fd) && k.Blocks(fd) == 0 && k.free > 0 && |data| > 0 && WriteFails(k, fd, |data|, offset)
    case TruncCall(fd, size) => k.Uses(fd) && k.Blocks(fd) == 0 && k.free > 0 && TruncFails(k, fd, size)
    case _ => false
  }

  /** The desk after such a call: the blocks are gone, but no file has changed. Of the seat only the
      size may be another one. */
  function AfterLoss(k: Desk, c: Call): Desk
  {
    match c
    case WriteCall(fd, data, offset) =>
      if !k.Uses(fd) then k
      else
        var s := k.seats[fd];
        var size := if offset < DATA_LEN * (k.free - 1) then Max(s.size, DATA_LEN * (k.free - 1)) else s.size;
        k.(seats := k.seats[fd := s.(size := size)], free := 0)
    case TruncCall(fd, _) => k.(free := 0)
    case _ => k
  }

  /** The positions of the call stay clear of the 32-bit limits. Of the writes without data only
      those inside the blocks of the file are covered; they do nothing. */
  predicate InReach(k: Desk, c: Call)
  {
    match c
    case WriteCall(fd, data, offset) =>
      k.Uses(fd) ==> if data == [] then Fits32(offset, k.Blocks(fd) + k.free) && offset / DATA_LEN < k.Blocks(fd)
                     else WriteFits(offset, |data|, k.Blocks(fd) + k.free)
    case ReadCall(fd, len, offset) => k.Uses(fd) ==> Fits32(offset, k.Blocks(fd)) || k.seats[fd].size < offset
    case TruncCall(fd, size) => k.Uses(fd) ==> Fits32(size, k.Blocks(fd) + k.free)
    case _ => true
  }

  /** The call fits on every drive of n blocks, whatever happened before. */
  predicate AlwaysInReach(c: Call, n: nat)
  {
    match c
    case WriteCall(_, data, offset) => data != [] && WriteFits(offset, |data|, n)
    case ReadCall(_, _, offset) => Fits32(offset, n)
    case TruncCall(_, size) => Fits32(size, n)
    case _ => true
  }

  lemma AlwaysMeansNow(k: Desk, c: Call, n: nat)
    requires AlwaysInReach(c, n)
    requires forall fd :: k.Uses(fd) ==> k.Blocks(fd) + k.free <= n
    ensures InReach(k, c)
  {
  }

  /** The outcome of a call in the current directory `dir`. */
  ghost predicate Gives(k: Desk, dir: nat, c: Call, o: Outcome)
  {
    match c
    case OpenCall(name) =>
      var e := Entry(dir, Stored(name));
      && o.err == (if name == "" then NoName else if e !in k.files then NotExist
                   else if !Seated(k, e) && Crowded(k) then NoFreeFd else None)
      && (if o.err == None then o.fd >= 0 && OpensAs(k, e, o.fd) else o.fd == -1)
    case CloseCall(fd) => o.err == if k.Uses(fd) then None else InvalFd
    case WriteCall(fd, data, offset) =>
      && o.err == (if !k.Uses(fd) then InvalFd
                   else if |data| > 0 && WriteFails(k, fd, |data|, offset) then DiskFull else None)
      && o.ret == if k.Uses(fd) then Written(k, fd, |data|, offset) else 0
    case ReadCall(fd, len, offset) =>
      && o.err == (if k.Uses(fd) then None else InvalFd)
      && if k.Uses(fd) then
           // as many bytes as asked for, as far as size and blocks reach, and exactly those of the file
           var bytes, size := k.FileOf(fd).bytes, k.seats[fd].size;
           && |o.out| <= len && (o.out != [] ==> offset + |o.out| <= size && offset + |o.out| <= |bytes|)
           && (|o.out| == len || offset + |o.out| >= size || offset + |o.out| >= |bytes|)
           && forall i :: 0 <= i < |o.out| ==> offset + i < |bytes| && o.out[i] == bytes[offset + i]
         else o.out == []
    case TruncCall(fd, size) =>
      o.err == if !k.Uses(fd) then InvalFd else if TruncFails(k, fd, size) then DiskFull else None
  }

  /** The desk after a call with this outcome. */
  ghost function After(k: Desk, dir: nat, c: Call, o: Outcome): Desk
  {
    match c
    case OpenCall(name) =>
      var e := Entry(dir, Stored(name));
      if o.err == None && e in k.files && o.fd >= 0 then AfterOpen(k, e, o.fd) else k
    case CloseCall(fd) => if k.Uses(fd) then AfterClose(k, fd) else k
    case WriteCall(fd, data, offset) => if k.Uses(fd) then AfterWrite(k, fd, data, offset) else k
    case ReadCall(_, _, _) => k
    case TruncCall(fd, size) => if k.Uses(fd) then AfterTrunc(k, fd, size) else k
  }

  /** The desk after the first |outs| calls. */
  ghost function Played(k: Desk, dir: nat, calls: seq<Call>, outs: seq<Outcome>): Desk
    requires |outs| <= |calls|
    decreases |outs|
  {
    if outs == [] then k
    else
      var n := |outs| - 1;
      After(Played(k, dir, calls, outs[..n]), dir, calls[n], outs[n])
  }

  // ----- the flat array -----

  /** What a read gives is the window, and nothing else can be. */
  lemma ReadIsWindow(k: Desk, dir: nat, fd: int, len: nat, offset: nat, o: Outcome)
    requires k.Uses(fd) && Gives(k, dir, ReadCall(fd, len, offset), o)
    ensures o.out == Window(k.FileOf(fd).bytes, k.seats[fd].size, offset, len)
  {
    var w := Window(k.FileOf(fd).bytes, k.seats[fd].size, offset, len);
    assert |o.out| == |w|;
  }

  /** What was written is read back, and nothing else is read differently. */
  lemma WriteThenWindow(k: Desk, fd: int, data: seq<bv8>, offset: nat, at: nat, len: nat)
    requires k.Uses(fd) && |data| > 0 && !WriteFails(k, fd, |data|, offset)
    ensures AfterWrite(k, fd, data, offset).Uses(fd)
    ensures var k' := AfterWrite(k, fd, data, offset);
      && Window(k'.FileOf(fd).bytes, k'.seats[fd].size, offset, |data|) == data
      && ((at + len <= offset || offset + |data| <= at) && at + len <= Min(k.seats[fd].size, |k.FileOf(fd).bytes|) ==>
            Window(k'.FileOf(fd).bytes, k'.seats[fd].size, at, len) ==
                Window(k.FileOf(fd).bytes, k.seats[fd].size, at, len))
  {
    var bytes, k' := k.FileOf(fd).bytes, AfterWrite(k, fd, data, offset);
    var p := Padded(bytes, DATA_LEN * BlocksAfter(k.Blocks(fd), offset, |data|));
    assert k'.FileOf(fd).bytes[offset..offset + |data|] == data;
    if (at + len <= offset || offset + |data| <= at) && at + len <= Min(k.seats[fd].size, |bytes|) {
      assert k'.FileOf(fd).bytes[at..at + len] == p[at..at + len] == bytes[at..at + len];
    }
  }

  /** Files at which a call does not sit keep their bytes and sizes, and no file comes or goes. */
  lemma OtherFilesStay(k: Desk, dir: nat, c: Call, o: Outcome, e: Entry)
    requires e in k.files
    requires match c
      case WriteCall(fd, _, _) => k.Uses(fd) ==> k.seats[fd].e != e
      case TruncCall(fd, _) => k.Uses(fd) ==> k.seats[fd].e != e
      case _ => true
    ensures var k' := After(k, dir, c, o); k'.files.Keys == k.files.Keys && k'.files[e] == k.files[e]
  {
  }
}
