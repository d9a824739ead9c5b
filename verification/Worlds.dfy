/** Everything at once in the abstract: the file tree of Spaces, and the open files of Desks on it. */
module Worlds {
  import opened Layout
  import opened Shapes
  import opened Links
  import opened Detaching
  import opened Spaces
  import opened Desks

  /** The tree and the file descriptors in use. */
  datatype World = World(space: Space, seats: map<nat, Seat>)

  /** The files of a tree by their entries. */
  ghost function FilesByEntry(s: Space): map<Entry, FlatFile>
  {
    map d, n | d in s.dirs && n in s.dirs[d] && s.dirs[d][n].typ == File ::
      Entry(d, n) := FlatFile(BytesOf(s, s.dirs[d][n].blk), s.dirs[d][n].size)
  }

  ghost function BytesOf(s: Space, x: nat): seq<bv8> { if x in s.files then s.files[x] else [] }

  /** The desk of a world. */
  ghost function DeskIn(w: World): Desk { Desk(FilesByEntry(w.space), w.seats, w.space.free) }

  /** Every seat is at a file of the tree, no two at the same, and the busy names are those at which
      somebody sits. */
  ghost predicate SoundWorld(w: World)
  {
    && Sound(w.space)
    && (forall fd :: fd in w.seats ==> w.seats[fd].e in FilesByEntry(w.space))
    && (forall fd, y :: fd in w.seats && y in w.seats && w.seats[fd].e == w.seats[y].e ==> fd == y)
    && (forall n :: n in w.space.busy <==> Seated(DeskIn(w), Entry(w.space.at, n)))
  }

  datatype Act = TreeAct(op: Op) | HandleAct(call: Call) | CountAct

  /** The seats after a namespace operation: at a renamed file they move along. */
  ghost function SeatsAfter(w: World, op: Op, err: Error): map<nat, Seat>
  {
    if op.RenameOp? && err == None then
      map fd | fd in w.seats :: Moved(w.seats[fd], Entry(w.space.at, Stored(op.from)), Entry(w.space.at, Stored(op.to)))
    else w.seats
  }

  ghost function Moved(s: Seat, e: Entry, f: Entry): Seat { if s.e == e then s.(e := f) else s }

  /** What an act does on a drive of n blocks. */
  ghost predicate Acts(n: nat, w: World, a: Act, o: Outcome, w': World)
  {
    match a
    case TreeAct(op) =>
      Steps(w.space, op, w'.space) && o.err == w'.space.err && w'.seats == SeatsAfter(w, op, o.err)
    case HandleAct(c) =>
      && Gives(DeskIn(w), w.space.at, c, o) && DeskIn(w') == After(DeskIn(w), w.space.at, c, o)
      && SameSkeleton(w.space.dirs, w'.space.dirs) && w'.space.at == w.space.at && w'.space.err == o.err
    case CountAct =>
      && o.err == None && o.ret + w.space.free == n
      && w'.seats == w.seats && Unchanged(w.space, w'.space) && w'.space.at == w.space.at && w'.space.err == None
  }

  // ----- files that a run is not about -----

  /** The act may change the file of entry e. */
  ghost predicate About(w: World, a: Act, e: Entry)
  {
    match a
    case TreeAct(op) => Names(op, w.space.at, e)
    case HandleAct(WriteCall(fd, _, _)) => fd in w.seats.Keys && w.seats[fd].e == e
    case HandleAct(TruncCall(fd, _)) => fd in w.seats.Keys && w.seats[fd].e == e
    case _ => false
  }

  lemma TreeStays(s: Space, op: Op, s': Space, e: Entry)
    requires Steps(s, op, s') && Sound(s) && Sound(s') && HasFile(s.dirs, e) && !Names(op, s.at, e)
    ensures HasFile(s'.dirs, e) && s'.dirs[e.dir][e.name] == s.dirs[e.dir][e.name]
    ensures var x := s.dirs[e.dir][e.name].blk; BytesOf(s', x) == BytesOf(s, x)
  {
    hide Steps, Names;
    var it := s.dirs[e.dir][e.name];
    assert it.blk != 0 ==> Points(s.dirs, e) && it.blk in s.files;
    FileStays(s, op, s', e, it, BytesOf(s, it.blk));
  }

  /** An act leaves every file alone that it is not about. */
  lemma ActStays(n: nat, w: World, a: Act, o: Outcome, w': World, e: Entry)
    requires Acts(n, w, a, o, w') && SoundWorld(w) && Sound(w'.space)
    requires e in FilesByEntry(w.space) && !About(w, a, e)
    ensures e in FilesByEntry(w'.space) && FilesByEntry(w'.space)[e] == FilesByEntry(w.space)[e]
  {
    hide Steps, Names, Sound, After, Gives, Unchanged;
    match a {
      case TreeAct(op) =>
        TreeStays(w.space, op, w'.space, e);
      case HandleAct(c) =>
        OtherFilesStay(DeskIn(w), w.space.at, c, o, e);
      case CountAct =>
        SameFiles(w.space, w'.space);
    }
  }

  lemma SameFiles(s: Space, s': Space)
    requires Unchanged(s, s')
    ensures FilesByEntry(s') == FilesByEntry(s)
  {
  }

  /** Over any run, a file that no act is about keeps its bytes and its size. */
  lemma {:induction false} FileOutlives(n: nat, worlds: seq<World>, acts: seq<Act>, outs: seq<Outcome>, e: Entry,
                                        i: nat)
    requires |outs| <= |acts| && |worlds| == |outs| + 1 && i <= |outs|
    requires forall j :: 0 <= j < |outs| ==>
      Acts(n, worlds[j], acts[j], outs[j], worlds[j + 1]) && !About(worlds[j], acts[j], e)
    requires forall j :: 0 <= j <= |outs| ==> SoundWorld(worlds[j])
    requires e in FilesByEntry(worlds[0].space)
    ensures e in FilesByEntry(worlds[i].space) && FilesByEntry(worlds[i].space)[e] == FilesByEntry(worlds[0].space)[e]
  {
    hide Acts, About, FilesByEntry;
    if i == 0 {
    } else {
      FileOutlives(n, worlds, acts, outs, e, i - 1);
      assert Acts(n, worlds[i - 1], acts[i - 1], outs[i - 1], worlds[i]);
      assert Sound(worlds[i].space) by { assert SoundWorld(worlds[i]); }
      ActStays(n, worlds[i - 1], acts[i - 1], outs[i - 1], worlds[i], e);
    }
  }
}
