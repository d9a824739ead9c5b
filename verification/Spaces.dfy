/** The volume in the abstract: directories and files with their contents, and what each namespace
    operation may do to them. No blocks, slots or caches take part; the number of a first block only
    tells which directory or file an entry leads to. */
module Spaces {
  import opened Layout
  import opened Shapes
  import opened Chains
  import opened Tree
  import opened Links
  import opened FileOps
  import opened Paths

  /** All directories, the contents of all files with blocks, the current directory, the last error
      and the number of free blocks. Two more things an operation depends on: how many blocks a new
      entry of the current directory costs, and which of its files are open. */
  datatype Space = Space(dirs: Listings, files: map<nat, seq<bv8>>, at: nat, err: Error, free: nat, cost: nat,
                         busy: set<Name>)

  datatype Op =
    | CreateDirOp(name: CString)
    | WriteFileOp(name: CString, data: seq<bv8>, overwrite: bool)
    | TouchOp(name: CString)
    | DeleteOp(name: CString, typ: ItemType)
    | RenameOp(from: CString, to: CString)
    | ChangeDirOp(name: CString)
    | ParentOp
    | RootOp
    | WalkOp(path: CString)

  /** The listing of the current directory. */
  ghost function Around(s: Space): map<Name, Item>
  {
    if s.at in s.dirs then s.dirs[s.at] else map[]
  }

  /** Directories, files and free blocks are the same. */
  ghost predicate Unchanged(s: Space, s': Space) { s'.dirs == s.dirs && s'.files == s.files && s'.free == s.free }

  ghost predicate MadeDir(s: Space, s': Space, n: Name, x: nat)
  {
    s.at in s.dirs && x !in s.dirs && s'.dirs == PutEntry(s.dirs, Entry(s.at, n), Item(Dir, x, 0, n))[x := map[]]
  }

  ghost predicate CreatesDir(s: Space, name: CString, s': Space)
  {
    && s'.at == s.at && s'.files == s.files
    && s'.err == (if name == "" then NoName else if Stored(name) in Around(s) then FileExist
                  else if s.free <= s.cost then DiskFull else None)
    && (s'.err != None ==> s'.dirs == s.dirs && s'.free == if s'.err == DiskFull then 0 else s.free)
    && (s'.err == None ==> s'.free + s.cost + 1 == s.free && exists x :: MadeDir(s, s', Stored(name), x))
  }

  ghost predicate Touches(s: Space, name: CString, s': Space)
  {
    var n := Stored(name);
    && s'.at == s.at && s'.files == s.files
    && s'.err == (if name == "" then NoName else if n !in Around(s) && s.free < s.cost then DiskFull else None)
    && if s'.err == None && n !in Around(s) then
         && s.at in s.dirs && s'.dirs == PutEntry(s.dirs, Entry(s.at, n), Item(File, 0, 0, n))
         && s'.free + s.cost == s.free
       else s'.dirs == s.dirs && s'.free == if s'.err == DiskFull then 0 else s.free
  }

  /** The head of what the name n stands for, 0 for a new name. */
  ghost function HeadAt(s: Space, n: Name): nat { if n in Around(s) then Around(s)[n].blk else 0 }

  /** The number of blocks of the file with head x. */
  ghost function BlocksOf(s: Space, x: nat): nat { if x in s.files then |s.files[x]| / DATA_LEN else 0 }

  /** There is no slot for the name n, and no block for one. */
  ghost predicate NoRoom(s: Space, n: Name) { n !in Around(s) && s.free < s.cost }

  /** Blocks that the contents of a file called n can get. */
  ghost function RoomAt(s: Space, n: Name): nat
  {
    if n in Around(s) then s.free + BlocksOf(s, HeadAt(s, n)) else if s.free < s.cost then 0 else s.free - s.cost
  }

  /** The file of that name got new contents with the chain c: all of `data`, or as much as fitted. */
  ghost predicate Wrote(s: Space, s': Space, n: Name, data: seq<bv8>, c: seq<nat>)
  {
    && s.at in s.dirs && s'.dirs == PutEntry(s.dirs, Entry(s.at, n), Item(File, HeadOf(c), |data|, n))
    && FilesAfter(s.files - {HeadAt(s, n)}, s'.files, c, data)
    && |c| == Min(BlocksFor(|data|), RoomAt(s, n)) && s'.free + |c| == RoomAt(s, n)
  }

  ghost predicate WritesFile(s: Space, name: CString, data: seq<bv8>, overwrite: bool, s': Space)
  {
    var n := Stored(name);
    && s'.at == s.at
    && s'.err == (if name == "" then NoName
                  else if n in Around(s) && !(overwrite && Around(s)[n].typ == File) then FileExist
                  else if n in Around(s) && n in s.busy then FileBusy
                  else if NoRoom(s, n) || RoomAt(s, n) < BlocksFor(|data|) then DiskFull else None)
    && (s'.err in {NoName, FileExist, FileBusy} ==> Unchanged(s, s'))
    && (s'.err == DiskFull ==> s'.free == 0)
    && (s'.err == DiskFull && RoomAt(s, n) == 0 ==> s'.dirs == s.dirs && s'.files == s.files)
    && (s'.err == None || (s'.err == DiskFull && RoomAt(s, n) > 0) ==> exists c :: Wrote(s, s', n, data, c))
  }

  /** Entry n of the current directory is removed, unless it is a directory with entries. Its blocks
      become free, and the block of the current directory that it was alone in, if any. */
  ghost predicate Removes(s: Space, n: Name, s': Space)
  {
    && s.at in s.dirs && n in s.dirs[s.at]
    && var it, e := s.dirs[s.at][n], Entry(s.at, n);
       if it.typ == Dir then
         && it.blk in s.dirs && s'.files == s.files
         && s'.err == (if s.dirs[it.blk] == map[] then None else NotEmpty)
         && s'.dirs == (if s'.err == None then DropEntry(s.dirs, e) - {it.blk} else s.dirs)
         && if s'.err == None then s.free + 1 <= s'.free <= s.free + 2 else s'.free == s.free
       else
         && s'.err == None && s'.files == s.files - {it.blk} && s'.dirs == DropEntry(s.dirs, e)
         && s.free + BlocksOf(s, it.blk) <= s'.free <= s.free + BlocksOf(s, it.blk) + 1
  }

  ghost predicate Deletes(s: Space, name: CString, typ: ItemType, s': Space)
  {
    var n := Stored(name);
    && s'.at == s.at
    && (s'.err == NoName <==> name == "")
    && (name != "" ==> (s'.err == NotExist <==> !(n in Around(s) && typ in {Free, Around(s)[n].typ})))
    && (name != "" && s'.err != NotExist ==> (s'.err == FileBusy <==> n in s.busy))
    && (if s'.err in {NoName, NotExist, FileBusy} then Unchanged(s, s') else Removes(s, n, s'))
  }

  ghost predicate Renames(s: Space, from: CString, to: CString, s': Space)
  {
    var n, m := Stored(from), Stored(to);
    && s'.at == s.at && s'.files == s.files && s'.free == s.free
    && s'.err == (if to == "" then NoName else if m in Around(s) then FileExist
                  else if from == "" then NoName else if n !in Around(s) then NotExist else None)
    && (s'.err != None ==> s'.dirs == s.dirs)
    && (s'.err == None ==> s.at in s.dirs && s'.dirs == RenamedListings(s.dirs, Entry(s.at, n), m))
  }

  ghost predicate Enters(s: Space, name: CString, s': Space)
  {
    && Unchanged(s, s')
    && s'.err == (if name == "" then NoName
                  else if Stored(name) in Around(s) && Around(s)[Stored(name)].typ == Dir then None else NotExist)
    && s'.at == if s'.err == None then Around(s)[Stored(name)].blk else s.at
  }

  /** Directory p has an entry for directory x. */
  ghost predicate Contains(T: Listings, p: nat, x: nat)
  {
    p in T && exists n :: n in T[p] && T[p][n].typ == Dir && T[p][n].blk == x
  }

  ghost predicate Leaves(s: Space, s': Space)
  {
    && Unchanged(s, s')
    && s'.err == (if s.at == ROOT then NotExist else None)
    && if s'.err == None then Contains(s.dirs, s'.at, s.at) else s'.at == s.at
  }

  ghost predicate Travels(s: Space, path: CString, s': Space)
  {
    && Unchanged(s, s')
    && var rooted := path != "" && path[0] == '/';
       if s.err != None && rooted then s'.err == s.err && s'.at == ROOT
       else
         var rel := if rooted then Part(path, 1, |path|) else path;
         var goal := Resolve(s.dirs, if rooted then ROOT else s.at, rel);
         && s'.err == (if FirstName(rel) == "" then s.err else if goal.Reached? then None else NotExist)
         && s'.at == if goal.Reached? then goal.dir else goal.at
  }

  /** What an operation does. */
  ghost predicate Steps(s: Space, op: Op, s': Space)
  {
    match op
    case CreateDirOp(name) => CreatesDir(s, name, s')
    case WriteFileOp(name, data, overwrite) => WritesFile(s, name, data, overwrite, s')
    case TouchOp(name) => Touches(s, name, s')
    case DeleteOp(name, typ) => Deletes(s, name, typ, s')
    case RenameOp(from, to) => Renames(s, from, to, s')
    case ChangeDirOp(name) => Enters(s, name, s')
    case ParentOp => Leaves(s, s')
    case RootOp => Unchanged(s, s') && s'.at == ROOT && s'.err == s.err
    case WalkOp(path) => Travels(s, path, s')
  }

  /** The states of a run, one before each operation and one at the end. */
  ghost predicate Trace(states: seq<Space>, ops: seq<Op>)
  {
    |states| == |ops| + 1 && forall i :: 0 <= i < |ops| ==> Steps(states[i], ops[i], states[i + 1])
  }

  // ----- files that a run does not name stay -----

  /** The operation may be about entry e. */
  ghost predicate Names(op: Op, at: nat, e: Entry)
  {
    e.dir == at &&
    match op
    case WriteFileOp(name, _, _) => e.name == Stored(name)
    case DeleteOp(name, _) => e.name == Stored(name)
    case RenameOp(from, _) => e.name == Stored(from)
    case _ => false
  }

  /** Entry e is a file with these contents. */
  ghost predicate HoldsFile(s: Space, e: Entry, it: Item, bytes: seq<bv8>)
  {
    && e.dir in s.dirs && e.name in s.dirs[e.dir] && s.dirs[e.dir][e.name] == it && it.typ == File
    && if it.blk == 0 then bytes == [] else it.blk in s.files && s.files[it.blk] == bytes
  }

  /** Entry e exists and points to a chain. */
  ghost predicate Points(T: Listings, e: Entry)
  {
    e.dir in T && e.name in T[e.dir] && T[e.dir][e.name].blk != 0
  }

  ghost function Target(T: Listings, e: Entry): nat
  {
    if Points(T, e) then T[e.dir][e.name].blk else 0
  }

  /** Different entries lead to different files and directories, and none leads to both; a new entry
      costs at most one block, and that only in a directory that fills its blocks. */
  ghost predicate Sound(s: Space)
  {
    var T := s.dirs;
    && 0 !in s.files && s.cost <= 1 && (s.cost == 1 ==> Around(s) != map[] && |Around(s)| % DIR_ITEMS == 0)
    && (forall e, f :: Points(T, e) && Points(T, f) && Target(T, e) == Target(T, f) ==> e == f)
    && (forall e :: Points(T, e) ==> (T[e.dir][e.name].typ == Dir <==> Target(T, e) in T))
    && (forall e :: Points(T, e) && T[e.dir][e.name].typ == File ==> Target(T, e) in s.files)
  }

  lemma FileStays(s: Space, op: Op, s': Space, e: Entry, it: Item, bytes: seq<bv8>)
    requires Steps(s, op, s') && Sound(s) && HoldsFile(s, e, it, bytes) && !Names(op, s.at, e)
    ensures HoldsFile(s', e, it, bytes)
  {
  }

  /** Over any run, a file that no operation is about keeps its entry and its contents. */
  lemma {:induction false} FileSurvives(states: seq<Space>, ops: seq<Op>, e: Entry, it: Item, bytes: seq<bv8>, n: nat)
    requires Trace(states, ops) && n <= |ops| && forall i :: 0 <= i <= |ops| ==> Sound(states[i])
    requires forall i :: 0 <= i < |ops| ==> !Names(ops[i], states[i].at, e)
    requires HoldsFile(states[0], e, it, bytes)
    ensures HoldsFile(states[n], e, it, bytes)
  {
    hide Steps, Sound, HoldsFile, Names;
    if n == 0 {
    } else {
      FileSurvives(states, ops, e, it, bytes, n - 1);
      assert Steps(states[n - 1], ops[n - 1], states[n]);
      FileStays(states[n - 1], ops[n - 1], states[n], e, it, bytes);
    }
  }
}
