/** On-disk layout of a TinyFS volume: block kinds, directory items, names and error codes. */
module Layout {
  const BLOCK_SIZE: nat := 512
  const DATA_LEN: nat := 504       // payload of a data block
  const DIR_ITEMS: nat := 20       // slots of a directory block
  const ITEM_LEN: nat := 25        // bytes of a directory slot
  const NAME_LEN: nat := 16
  const BITMAP_COUNT: nat := 4096  // blocks described by one bitmap block
  const ROOT: nat := 1
  const INVAL: nat := 0xffff_ffff  // "no bitmap block loaded": the disk is known to be full
  const LIMIT: nat := 0x1_0000_0000
  const SEEK_LIMIT: nat := 0xffff_ff00  // positions from here on make the test of seek wrap around
  const MAX_FDS: nat := 32
  const NUL: char := '\0'

  /** `None` stands for TFS_ERR_OK. */
  datatype Error = None | NoDev | DiskFull | FileExist | NotExist | NotEmpty | NoName
                 | UnexpEof | Io | NoFreeFd | InvalFd | FileBusy

  datatype ItemType = Free | Dir | File

  /** A directory slot. The name is the raw 16-character field, padded with NULs. */
  datatype Item = Item(typ: ItemType, blk: nat, size: nat, name: seq<char>)

  /** A disk block. `Raw` covers bitmap blocks and whatever an unformatted disk holds. */
  datatype Block =
    | Raw(bytes: seq<bv8>)
    | DirBlk(prev: nat, next: nat, parent: nat, items: seq<Item>)
    | DataBlk(prev: nat, next: nat, data: seq<bv8>)
  {
    /** Directory and data blocks keep their links at the same place. */
    function WithPrev(p: nat): Block
    {
      match this
      case Raw(_) => this
      case DirBlk(_, n, parent, items) => DirBlk(p, n, parent, items)
      case DataBlk(_, n, data) => DataBlk(p, n, data)
    }

    function WithNext(n: nat): Block
    {
      match this
      case Raw(_) => this
      case DirBlk(p, _, parent, items) => DirBlk(p, n, parent, items)
      case DataBlk(p, _, data) => DataBlk(p, n, data)
    }
  }

  /** A C string argument: it ends at its first NUL. */
  type CString = s: string | NUL !in s

  /** A zeroed directory slot. */
  function FreeItem(): (r: Item)
    ensures r.typ == Free && r.blk == 0 && r.size == 0 && |r.name| == NAME_LEN
  {
    Item(Free, 0, 0, seq(NAME_LEN, _ => NUL))
  }

  function FreeItems(): (r: seq<Item>)
    ensures |r| == DIR_ITEMS && forall k :: 0 <= k < DIR_ITEMS ==> r[k] == FreeItem()
  {
    seq(DIR_ITEMS, _ => FreeItem())
  }

  function Zeros(n: nat): (r: seq<bv8>)
    ensures |r| == n && forall k :: 0 <= k < n ==> r[k] == 0
  {
    seq(n, _ => 0)
  }

  function Min(a: nat, b: nat): nat { if a <= b then a else b }

  function Max(a: nat, b: nat): nat { if a <= b then b else a }

  ghost function Elems(c: seq<nat>): set<nat> { set b | b in c }

  // ----- names -----

  /** What strncpy(item->name, name, TFS_NAME_LEN) leaves in the name field. */
  function Stored(name: CString): (r: seq<char>)
    ensures |r| == NAME_LEN
    ensures forall i :: 0 <= i < 16 ==> r[i] == if i < |name| then name[i] else '\0'
    ensures Canonical(r)
    ensures name != "" <==> r[0] != NUL
  {
    if |name| >= NAME_LEN then name[..NAME_LEN]
    else name + seq(NAME_LEN - |name|, _ => NUL)
  }

  /** A name field as strncpy writes it: nothing but NULs after the first NUL. */
  predicate Canonical(n: seq<char>)
  {
    |n| == NAME_LEN && forall i, j :: 0 <= i < j < NAME_LEN && n[i] == NUL ==> n[j] == NUL
  }

  /** strncmp(name, field, TFS_NAME_LEN) == 0, from character i on. */
  predicate NameMatches(name: CString, field: seq<char>, i: nat)
    requires |field| == NAME_LEN && i <= NAME_LEN && i <= |name|
    decreases NAME_LEN - i
  {
    if i == NAME_LEN then true
    else if i == |name| then field[i] == NUL
    else name[i] == field[i] && NameMatches(name, field, i + 1)
  }

  /** Comparing against a stored name is comparing stored forms: only 16 characters count. */
  lemma {:induction false} MatchIsStoredEquality(name: CString, field: seq<char>, i: nat)
    requires Canonical(field) && i <= NAME_LEN && i <= |name|
    requires forall j :: 0 <= j < i ==> name[j] == field[j]
    ensures NameMatches(name, field, i) <==> Stored(name) == field
    decreases NAME_LEN - i
  {
    var s := Stored(name);
    if i < NAME_LEN {
      if i == |name| {
        assert s[i] == NUL;
        if field[i] == NUL {
          assert forall j :: 0 <= j < NAME_LEN ==> s[j] == field[j];
        }
      } else {
        assert s[i] == name[i];
        if name[i] == field[i] {
          MatchIsStoredEquality(name, field, i + 1);
        }
      }
    } else {
      assert forall j :: 0 <= j < NAME_LEN ==> s[j] == field[j];
    }
  }
}
