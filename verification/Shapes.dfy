/** Bookkeeping that gives a volume its meaning: which chain every block belongs to, where every
    name of a directory is stored, and which entry every chain hangs from. */
module Shapes {
  type Name = seq<char>

  /** A slot of a directory: block i of its chain, item k of the block. */
  datatype Slot = Slot(i: nat, k: nat)

  /** A named entry of the directory with head block `dir`. */
  datatype Entry = Entry(dir: nat, name: Name)

  datatype Shape = Shape(
    chains: map<nat, seq<nat>>,        // head block -> blocks of the chain
    own: map<nat, nat>,                // block -> head of its chain
    slots: map<nat, map<Name, Slot>>,  // directory head -> name -> slot
    up: map<nat, Entry>,               // chain head -> the entry that points to it
    depth: map<nat, nat>)              // directory head -> distance from the root

  /** Item k of block blk is the place of entry e. */
  ghost predicate AtSlot(sh: Shape, e: Entry, blk: nat, k: nat)
  {
    && e.dir in sh.slots && e.dir in sh.chains && e.name in sh.slots[e.dir]
    && sh.slots[e.dir][e.name].i < |sh.chains[e.dir]|
    && blk == sh.chains[e.dir][sh.slots[e.dir][e.name].i] && k == sh.slots[e.dir][e.name].k
  }
}
