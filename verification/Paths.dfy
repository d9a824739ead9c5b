/** travel_path of the FUSE front end: walking a path down to its last component. */
module Paths {
  import opened Layout
  import opened Volume
  import opened Tree
  import opened Mounted
  import opened Navigation

  /** A walk stops in the directory where a component does not exist, or reaches the last one. */
  datatype Walked = Lost(at: nat) | Reached(dir: nat, rest: CString)

  /** Position of the first slash, or the length if there is none. */
  function FirstSlash(path: string): (i: nat)
    ensures i <= |path| && (i < |path| ==> path[i] == '/')
    ensures forall j :: 0 <= j < i ==> path[j] != '/'
  {
    if path == "" || path[0] == '/' then 0 else 1 + FirstSlash(path[1..])
  }

  /** A stretch of a C string is a C string. */
  function Part(path: CString, i: nat, j: nat): (r: CString)
    requires i <= j <= |path|
    ensures r == path[i..j] && (|r| == |path| ==> r == path)
  {
    path[i..j]
  }

  predicate Absolute(path: CString) { path != "" && path[0] == '/' }

  /** The path without its leading slash. */
  function Relative(path: CString): CString
  {
    if Absolute(path) then Part(path, 1, |path|) else path
  }

  /** What a path means in a tree of directories: every component before the last slash names a
      subdirectory in turn; empty components are skipped, names over 16 characters do not exist. */
  ghost function Resolve(T: Listings, dir: nat, path: CString): Walked
    decreases |path|
  {
    var i := FirstSlash(path);
    if i == |path| then Reached(dir, path)
    else
      var name, rest := Part(path, 0, i), Part(path, i + 1, |path|);
      if name == "" then Resolve(T, dir, rest)
      else if |name| <= NAME_LEN && dir in T && Stored(name) in T[dir] && T[dir][Stored(name)].typ == Dir
      then Resolve(T, T[dir][Stored(name)].blk, rest)
      else Lost(dir)
  }

  /** The first component that is looked up: the first that is not empty, before the last slash; ""
      if there is none. */
  ghost function FirstName(path: CString): CString
    decreases |path|
  {
    var i := FirstSlash(path);
    if i == |path| then ""
    else if i > 0 then Part(path, 0, i)
    else FirstName(Part(path, 1, |path|))
  }

  lemma SlashAt(path: string, k: nat)
    requires k <= |path| && (k < |path| ==> path[k] == '/') && forall j :: 0 <= j < k ==> path[j] != '/'
    ensures FirstSlash(path) == k
  {
  }

  lemma NextComponent(path: CString, tok: nat, pos: nat)
    requires tok <= pos < |path| && path[pos] == '/' && forall j :: tok <= j < pos ==> path[j] != '/'
    ensures var p := Part(path, tok, |path|);
      && FirstSlash(p) == pos - tok < |p|
      && Part(p, 0, pos - tok) == Part(path, tok, pos) && Part(p, pos - tok + 1, |p|) == Part(path, pos + 1, |path|)
  {
    SlashAt(path[tok..|path|], pos - tok);
  }

  /** What the component of a path from tok to the slash at pos contributes. */
  lemma ComponentStep(T: Listings, dir: nat, path: CString, tok: nat, pos: nat)
    requires tok <= pos < |path| && path[pos] == '/' && forall j :: tok <= j < pos ==> path[j] != '/'
    ensures var p, name, rest := Part(path, tok, |path|), Part(path, tok, pos), Part(path, pos + 1, |path|);
      && (name == "" ==> Resolve(T, dir, p) == Resolve(T, dir, rest) && FirstName(p) == FirstName(rest))
      && (name != "" ==> FirstName(p) == name)
    ensures var name, rest := Part(path, tok, pos), Part(path, pos + 1, |path|);
      name != "" ==>
        if |name| <= NAME_LEN && dir in T && Stored(name) in T[dir] && T[dir][Stored(name)].typ == Dir
        then Resolve(T, dir, Part(path, tok, |path|)) == Resolve(T, T[dir][Stored(name)].blk, rest)
        else Resolve(T, dir, Part(path, tok, |path|)) == Lost(dir)
  {
    hide FirstSlash, Stored, Part;
    NextComponent(path, tok, pos);
  }

  lemma LastComponent(T: Listings, dir: nat, path: CString, tok: nat)
    requires tok <= |path| && forall j :: tok <= j < |path| ==> path[j] != '/'
    ensures var p := Part(path, tok, |path|); Resolve(T, dir, p) == Reached(dir, p) && FirstName(p) == ""
  {
    SlashAt(path[tok..|path|], |path| - tok);
  }

  /** One component of a path: too long a name is not looked up at all. */
  method EnterComponent(g: Fs, name: CString) returns (ok: bool)
    requires Inv(g) && name != ""
    modifies g`err, g`currentDirBlk, g`disk, g`marked, g`sh, g`loadedBitmapBlk, g`buf, g`loadedDirBlk, g.bitmap
    ensures Inv(g) && g.disk == old(g.disk) && g.sh == old(g.sh) && g.marked == old(g.marked)
    ensures g.err == if ok then None else if old(g.err) == NoDev && |name| <= NAME_LEN then NoDev else NotExist
    ensures var T, dir := Dirs(g), old(g.currentDirBlk);
      && dir in T
      && (ok <==>
            old(g.err) != NoDev && |name| <= NAME_LEN && Stored(name) in T[dir] && T[dir][Stored(name)].typ == Dir)
      && (ok ==> g.currentDirBlk == T[dir][Stored(name)].blk)
      && (!ok ==> g.currentDirBlk == dir)
  {
    hide Wf, TreeOf, BitmapsOn, MarkedOn, FilesOk, Stored;
    InDirs(g);
    if |name| > NAME_LEN {
      g.err := NotExist;
      return false;
    }
    ChangeDir(g, name);
    return g.err == None;
  }

  // ----- a path position by position -----

  /** The component from position `from` to the slash before `to` leads from dir to next. */
  ghost predicate Passes(T: Listings, path: CString, from: nat, to: nat, dir: nat, next: nat)
  {
    && from < to <= |path| && path[to - 1] == '/' && (forall j :: from <= j < to - 1 ==> path[j] != '/')
    && var name := Part(path, from, to - 1);
       if name == "" then next == dir
       else
         && |name| <= NAME_LEN && dir in T && Stored(name) in T[dir] && T[dir][Stored(name)].typ == Dir
         && next == T[dir][Stored(name)].blk
  }

  /** The components that begin at `starts` lead through the directories `trail`. */
  ghost predicate Along(T: Listings, path: CString, starts: seq<nat>, trail: seq<nat>)
  {
    && |starts| == |trail| > 0
    && forall i :: 0 < i < |starts| ==> Passes(T, path, starts[i - 1], starts[i], trail[i - 1], trail[i])
  }

  /** The component that begins at `from` has a slash behind it and cannot be entered from dir. */
  ghost predicate Blocked(T: Listings, path: CString, from: nat, dir: nat)
  {
    exists q :: Refused(T, path, from, q, dir)
  }

  ghost predicate Refused(T: Listings, path: CString, from: nat, q: nat, dir: nat)
  {
    && from < q < |path| && path[q] == '/' && (forall j :: from <= j < q ==> path[j] != '/')
    && var name := Part(path, from, q);
       !(|name| <= NAME_LEN && dir in T && Stored(name) in T[dir] && T[dir][Stored(name)].typ == Dir)
  }

  /** What a walk along a path means for the characters of the path: every stretch between slashes,
      in their order, is the name of a subdirectory of the directory reached before, or empty. */
  lemma AlongMeans(T: Listings, path: CString, starts: seq<nat>, trail: seq<nat>, i: nat)
    requires Along(T, path, starts, trail) && 0 < i < |starts|
    ensures |trail| == |starts| && starts[i - 1] < starts[i] <= |path| && path[starts[i] - 1] == '/'
    ensures forall j :: starts[i - 1] <= j < starts[i] - 1 ==> path[j] != '/'
    ensures starts[i] == starts[i - 1] + 1 ==> trail[i] == trail[i - 1]
    ensures forall name: CString :: name == path[starts[i - 1]..starts[i] - 1] && name != "" ==>
      && |name| <= 16 && trail[i - 1] in T && Stored(name) in T[trail[i - 1]]
      && T[trail[i - 1]][Stored(name)].typ == Dir && T[trail[i - 1]][Stored(name)].blk == trail[i]
  {
    hide Stored;
    assert Passes(T, path, starts[i - 1], starts[i], trail[i - 1], trail[i]);
  }

  /** What it means that a walk stops: the next stretch before a slash is too long, or it is not the
      name of a subdirectory of the directory reached. */
  lemma BlockedMeans(T: Listings, path: CString, from: nat, dir: nat) returns (q: nat)
    requires Blocked(T, path, from, dir)
    ensures from < q < |path| && path[q] == '/' && forall j :: from <= j < q ==> path[j] != '/'
    ensures forall name: CString :: name == path[from..q] ==>
      |name| > 16 || dir !in T || Stored(name) !in T[dir] || T[dir][Stored(name)].typ != Dir
  {
    hide Stored;
    q :| Refused(T, path, from, q, dir);
  }

  lemma AlongStep(T: Listings, path: CString, starts: seq<nat>, trail: seq<nat>, to: nat, next: nat)
    requires Along(T, path, starts, trail) && Passes(T, path, starts[|starts| - 1], to, trail[|trail| - 1], next)
    ensures Along(T, path, starts + [to], trail + [next])
  {
    hide Passes;
    var starts', trail' := starts + [to], trail + [next];
    forall i | 0 < i < |starts'| ensures Passes(T, path, starts'[i - 1], starts'[i], trail'[i - 1], trail'[i]) {
      if i < |starts| {
        assert Passes(T, path, starts[i - 1], starts[i], trail[i - 1], trail[i]);
      }
    }
  }

  /** Between two components: the walk came from dir0 to dir along the components passed, and the goal
      is where the rest of the path leads from here. */
  ghost predicate Between(T: Listings, path: CString, starts: seq<nat>, trail: seq<nat>, start0: nat, dir0: nat,
                          tok: nat, dir: nat, goal: Walked)
  {
    && Along(T, path, starts, trail) && |starts| == |trail| > 0 && starts[0] == start0 && trail[0] == dir0
    && starts[|starts| - 1] == tok <= |path| && trail[|trail| - 1] == dir
    && Resolve(T, dir, Part(path, tok, |path|)) == goal
  }

  lemma BetweenStart(T: Listings, path: CString, tok: nat, dir: nat)
    requires tok <= |path|
    ensures Between(T, path, [tok], [dir], tok, dir, tok, dir, Resolve(T, dir, Part(path, tok, |path|)))
  {
  }

  /** The component up to the slash at pos is passed. */
  lemma BetweenStep(T: Listings, path: CString, starts: seq<nat>, trail: seq<nat>, start0: nat, dir0: nat,
                    tok: nat, dir: nat, goal: Walked, pos: nat, next: nat)
    requires Between(T, path, starts, trail, start0, dir0, tok, dir, goal)
    requires tok <= pos < |path| && path[pos] == '/' && forall j :: tok <= j < pos ==> path[j] != '/'
    requires var name := Part(path, tok, pos);
      if name == "" then next == dir
      else
        && |name| <= NAME_LEN && dir in T && Stored(name) in T[dir] && T[dir][Stored(name)].typ == Dir
        && next == T[dir][Stored(name)].blk
    ensures Between(T, path, starts + [pos + 1], trail + [next], start0, dir0, pos + 1, next, goal)
    ensures var name := Part(path, tok, pos);
      FirstName(Part(path, tok, |path|)) == if name == "" then FirstName(Part(path, pos + 1, |path|)) else name
  {
    hide Stored, Part, Resolve, FirstName, Along, Passes;
    ComponentStep(T, dir, path, tok, pos);
    PassesOn(T, path, tok, pos, dir, next);
    AlongStep(T, path, starts, trail, pos + 1, next);
  }

  /** The component up to the slash at pos cannot be entered; without a drive it was not looked at. */
  lemma BetweenStops(T: Listings, path: CString, starts: seq<nat>, trail: seq<nat>, start0: nat, dir0: nat,
                     tok: nat, dir: nat, goal: Walked, pos: nat, blind: bool)
    requires Between(T, path, starts, trail, start0, dir0, tok, dir, goal)
    requires tok <= pos < |path| && path[pos] == '/' && forall j :: tok <= j < pos ==> path[j] != '/'
    requires var name := Part(path, tok, pos);
      name != "" && (blind
                     || !(|name| <= NAME_LEN && dir in T && Stored(name) in T[dir] && T[dir][Stored(name)].typ == Dir))
    ensures Along(T, path, starts, trail) && |starts| == |trail| > 0 && starts[0] == start0 && trail[0] == dir0
    ensures starts[|starts| - 1] == tok && trail[|trail| - 1] == dir
    ensures FirstName(Part(path, tok, |path|)) == Part(path, tok, pos)
    ensures blind || (Blocked(T, path, tok, dir) && goal == Lost(dir))
  {
    hide Stored, Part, Resolve, FirstName, Along, Passes;
    ComponentStep(T, dir, path, tok, pos);
    if !blind { Stops(T, path, tok, pos, dir); }
  }

  lemma BetweenEnds(T: Listings, path: CString, starts: seq<nat>, trail: seq<nat>, start0: nat, dir0: nat,
                    tok: nat, dir: nat, goal: Walked)
    requires Between(T, path, starts, trail, start0, dir0, tok, dir, goal)
    requires forall j :: tok <= j < |path| ==> path[j] != '/'
    ensures Along(T, path, starts, trail) && |starts| == |trail| > 0 && starts[0] == start0 && trail[0] == dir0
    ensures starts[|starts| - 1] == tok && trail[|trail| - 1] == dir
    ensures goal == Reached(dir, Part(path, tok, |path|)) && FirstName(Part(path, tok, |path|)) == ""
  {
    hide Along;
    LastComponent(T, dir, path, tok);
  }

  /** travel_path: it succeeds exactly if the path resolves, and leaves the last component to the
      caller. An error from before stops an absolute path at once; on a relative path it is forgotten
      as soon as a name is looked up, unless there is no drive. The ghost results are the positions
      where the components begin that were passed, and the directories in which they stand. */
  method TravelPath(g: Fs, path: CString)
      returns (ok: bool, rest: CString, ghost starts: seq<nat>, ghost trail: seq<nat>)
    requires Inv(g)
    modifies g`err, g`currentDirBlk, g`disk, g`marked, g`sh, g`loadedBitmapBlk, g`buf, g`loadedDirBlk, g.bitmap
    ensures Inv(g) && g.disk == old(g.disk) && g.sh == old(g.sh) && g.marked == old(g.marked)
    // behind a leading slash it begins in the root, otherwise where it is; it goes component by component
    ensures Along(Dirs(g), path, starts, trail) && |starts| == |trail| > 0
    ensures path != "" && path[0] == '/' ==> starts[0] == 1 && trail[0] == ROOT
    ensures !(path != "" && path[0] == '/') ==> starts[0] == 0 && trail[0] == old(g.currentDirBlk)
    // and ends in the directory reached, before the last component or before one that cannot be entered
    ensures g.currentDirBlk == trail[|trail| - 1]
    ensures ok ==> starts[|starts| - 1] <= |path| && rest == path[starts[|starts| - 1]..] && '/' !in rest
    ensures !ok && old(g.err) != NoDev && (old(g.err) == None || path == "" || path[0] != '/') ==>
      Blocked(Dirs(g), path, starts[|starts| - 1], g.currentDirBlk)
    // all at once, and the errors
    ensures old(g.err) != None && Absolute(path) ==> !ok && g.err == old(g.err) && g.currentDirBlk == ROOT
    ensures old(g.err) == None || !Absolute(path) ==>
      var start, first := if Absolute(path) then ROOT else old(g.currentDirBlk), FirstName(Relative(path));
      var goal := Resolve(Dirs(g), start, Relative(path));
      && (ok <==> goal.Reached? && (old(g.err) == NoDev ==> first == ""))
      && (ok ==> goal == Reached(g.currentDirBlk, rest))
      && (!ok && old(g.err) != NoDev ==> goal == Lost(g.currentDirBlk))
      && g.err == if first == "" then old(g.err) else if ok then None
                  else if old(g.err) == NoDev && |first| <= NAME_LEN then NoDev else NotExist
  {
    hide Holding, TreeOf, Stored, FirstSlash, Part, Resolve, FirstName, Along, Passes, Blocked, Between, Inv;
    rest := "";
    var pos := 0;
    starts, trail := [0], [g.currentDirBlk];
    AlongNothing(Dirs(g), path);
    if path != "" && path[pos] == '/' {
      pos := pos + 1;
      ChangeDirRoot(g);
      starts, trail := [1], [ROOT];
      if g.err != None {
        return false, rest, starts, trail;
      }
    }
    ghost var T: Listings, goal := Dirs(g), Resolve(Dirs(g), g.currentDirBlk, Relative(path));
    ghost var first, start0, dir0 := FirstName(Relative(path)), starts[0], trail[0];
    assert Part(path, pos, |path|) == Relative(path);
    BetweenStart(T, path, pos, g.currentDirBlk);
    var tok := pos;
    ghost var looked := false;
    while pos < |path|
      invariant tok <= pos <= |path| && Inv(g) && Dirs(g) == T
      invariant g.disk == old(g.disk) && g.sh == old(g.sh) && g.marked == old(g.marked)
      invariant Between(T, path, starts, trail, start0, dir0, tok, g.currentDirBlk, goal)
      invariant if looked then g.err == None && first != "" && old(g.err) != NoDev
                else g.err == old(g.err) && first == FirstName(Part(path, tok, |path|))
      invariant forall j :: tok <= j < pos ==> path[j] != '/'
    {
      if path[pos] == '/' {
        var name := Part(path, tok, pos);
        ghost var dir := g.currentDirBlk;
        if name != "" {
          var entered := EnterComponent(g, name);
          if !entered {
            BetweenStops(T, path, starts, trail, start0, dir0, tok, dir, goal, pos, old(g.err) == NoDev);
            return false, rest, starts, trail;
          }
          looked := true;
        }
        BetweenStep(T, path, starts, trail, start0, dir0, tok, dir, goal, pos, g.currentDirBlk);
        tok := pos + 1;
        starts, trail := starts + [tok], trail + [g.currentDirBlk];
      }
      pos := pos + 1;
    }
    BetweenEnds(T, path, starts, trail, start0, dir0, tok, g.currentDirBlk, goal);
    return true, Part(path, tok, |path|), starts, trail;
  }

  lemma AlongNothing(T: Listings, path: CString)
    ensures forall s, d :: Along(T, path, [s], [d])
  {
  }

  lemma Stops(T: Listings, path: CString, from: nat, q: nat, dir: nat)
    requires Refused(T, path, from, q, dir)
    ensures Blocked(T, path, from, dir)
  {
    hide Refused;
  }

  lemma PassesOn(T: Listings, path: CString, from: nat, q: nat, dir: nat, next: nat)
    requires from <= q < |path| && path[q] == '/' && (forall j :: from <= j < q ==> path[j] != '/')
    requires var name := Part(path, from, q);
      if name == "" then next == dir
      else
        && |name| <= NAME_LEN && dir in T && Stored(name) in T[dir] && T[dir][Stored(name)].typ == Dir
        && next == T[dir][Stored(name)].blk
    ensures Passes(T, path, from, q + 1, dir, next)
  {
  }
}
