/** What the single edits of a directory mean for it as a map from names to items. */
module Entries {
  import opened Layout
  import opened Shapes
  import opened Directory
  import opened Tree

  ghost function SetItem(L: seq<seq<Item>>, s: Slot, it: Item): seq<seq<Item>>
    requires InRange(L, s)
  {
    L[s.i := L[s.i][s.k := it]]
  }

  ghost predicate GoodName(n: Name) { Canonical(n) && n[0] != NUL }

  /** A fresh block goes behind a full directory: no name moves. */
  lemma AppendIndex(L: seq<seq<Item>>, t: map<Name, Slot>)
    requires Index(L, t) && !HasFree(L)
    requires forall i :: 0 <= i < |L| ==> |L[i]| == DIR_ITEMS
    ensures Index(L + [FreeItems()], t) && Packed(L + [FreeItems()])
    ensures Listing(L + [FreeItems()], t) == Listing(L, t)
  {
    var L' := L + [FreeItems()];
    forall i | 0 <= i < |L'| - 1 ensures !AllFree(L'[i]) {
      assert AllLive(L[i]) && L[i][0].typ != Free;
    }
  }

  /** A new item goes into a free slot. */
  lemma PutIndex(L: seq<seq<Item>>, t: map<Name, Slot>, s: Slot, it: Item)
    requires Index(L, t) && Packed(L) && InRange(L, s) && L[s.i][s.k].typ == Free
    requires it.typ != Free && GoodName(it.name) && it.name !in t
    ensures Index(SetItem(L, s, it), t[it.name := s]) && Packed(SetItem(L, s, it))
    ensures Listing(SetItem(L, s, it), t[it.name := s]) == Listing(L, t)[it.name := it]
  {
    hide Packed;
    PackedSet(L, s, it);
  }

  lemma PackedSet(L: seq<seq<Item>>, s: Slot, it: Item)
    requires Packed(L) && InRange(L, s) && it.typ != Free
    ensures Packed(SetItem(L, s, it))
  {
    var L' := SetItem(L, s, it);
    forall i | 0 <= i < |L'| - 1 ensures !AllFree(L'[i]) {
      if i == s.i {
        assert L'[i][s.k].typ != Free;
      } else {
        assert !AllFree(L[i]);
      }
    }
  }

  /** A live item is replaced by one of the same name. */
  lemma UpdateIndex(L: seq<seq<Item>>, t: map<Name, Slot>, n: Name, it: Item)
    requires Index(L, t) && Packed(L) && n in t && it.typ != Free && it.name == n
    ensures InRange(L, t[n])
    ensures Index(SetItem(L, t[n], it), t) && Packed(SetItem(L, t[n], it))
    ensures Listing(SetItem(L, t[n], it), t) == Listing(L, t)[n := it]
  {
    hide Packed;
    PackedSet(L, t[n], it);
  }

  /** A live item gets another name that is not in use. */
  lemma RenameIndex(L: seq<seq<Item>>, t: map<Name, Slot>, n: Name, m: Name)
    requires Index(L, t) && Packed(L) && n in t && GoodName(m) && m !in t
    ensures InRange(L, t[n])
    ensures var it := L[t[n].i][t[n].k].(name := m); var t' := (t - {n})[m := t[n]];
      && Index(SetItem(L, t[n], it), t') && Packed(SetItem(L, t[n], it))
      && Listing(SetItem(L, t[n], it), t') == (Listing(L, t) - {n})[m := it]
  {
    hide Packed, Index, HoldsName;
    RenamedSlots(L, t, n, m);
    var it, t' := L[t[n].i][t[n].k].(name := m), (t - {n})[m := t[n]];
    PackedSet(L, t[n], it);
    assert Listing(SetItem(L, t[n], it), t') == (Listing(L, t) - {n})[m := it];
  }

  lemma RenamedSlots(L: seq<seq<Item>>, t: map<Name, Slot>, n: Name, m: Name)
    requires Index(L, t) && n in t && GoodName(m) && m !in t
    ensures InRange(L, t[n]) && L[t[n].i][t[n].k].typ != Free
    ensures var it := L[t[n].i][t[n].k].(name := m); var t' := (t - {n})[m := t[n]];
      && Index(SetItem(L, t[n], it), t')
      && (forall x :: x in t' ==> InRange(L, t'[x]))
      && forall x :: x in t' ==>
           SetItem(L, t[n], it)[t'[x].i][t'[x].k] == if x == m then it else L[t'[x].i][t'[x].k]
  {
    var s := t[n];
    var it, t' := L[s.i][s.k].(name := m), (t - {n})[m := s];
    var L' := SetItem(L, s, it);
    forall x | x in t'
      ensures HoldsName(L', t'[x], x) && InRange(L, t'[x])
      ensures L'[t'[x].i][t'[x].k] == if x == m then it else L[t'[x].i][t'[x].k]
    {
      if x != m {
        assert HoldsName(L, t[x], x) && t[x] != s;
      }
    }
  }

  /** The slots once block `at` is gone. */
  ghost function Shifted(t: map<Name, Slot>, at: nat): map<Name, Slot>
  {
    map n | n in t :: if t[n].i > at then Slot(t[n].i - 1, t[n].k) else t[n]
  }

  /** An all-free block is taken out: the blocks behind it move up. */
  lemma DropBlockIndex(L: seq<seq<Item>>, t: map<Name, Slot>, at: nat)
    requires Index(L, t) && at < |L| && AllFree(L[at])
    ensures Index(L[..at] + L[at + 1..], Shifted(t, at))
    ensures Listing(L[..at] + L[at + 1..], Shifted(t, at)) == Listing(L, t)
  {
    hide HoldsName, AllFree;
    var L': seq<seq<Item>> := L[..at] + L[at + 1..];
    var t' := Shifted(t, at);
    forall n | n in t
      ensures HoldsName(L', t'[n], n) && InRange(L', t'[n]) && InRange(L, t[n])
      ensures L'[t'[n].i][t'[n].k] == L[t[n].i][t[n].k]
    {
      DroppedName(L, t, at, n);
    }
    forall i, k | 0 <= i < |L'| && 0 <= k < |L'[i]| && L'[i][k].typ != Free
      ensures L'[i][k].name in t' && t'[L'[i][k].name] == Slot(i, k)
    {
      DroppedSlot(L, t, at, i, k);
    }
    assert Listing(L', t') == Listing(L, t);
  }

  lemma DroppedName(L: seq<seq<Item>>, t: map<Name, Slot>, at: nat, n: Name)
    requires Index(L, t) && at < |L| && AllFree(L[at]) && n in t
    ensures var L', s := L[..at] + L[at + 1..], Shifted(t, at)[n];
      && HoldsName(L', s, n) && InRange(L', s) && InRange(L, t[n]) && L'[s.i][s.k] == L[t[n].i][t[n].k]
  {
    assert HoldsName(L, t[n], n) && t[n].i != at;
  }

  lemma DroppedSlot(L: seq<seq<Item>>, t: map<Name, Slot>, at: nat, i: nat, k: nat)
    requires Index(L, t) && at < |L| && i < |L| - 1
    requires var M: seq<seq<Item>> := L[..at] + L[at + 1..]; k < |M[i]| && M[i][k].typ != Free
    ensures var M: seq<seq<Item>> := L[..at] + L[at + 1..];
      M[i][k].name in t && Shifted(t, at)[M[i][k].name] == Slot(i, k)
  {
    var j := if i < at then i else i + 1;
    assert (L[..at] + L[at + 1..])[i] == L[j];
    assert t[L[j][k].name] == Slot(j, k);
  }

  /** The slots after the item called n was freed and an emptied block was dropped. */
  ghost function RemovedSlots(L: seq<seq<Item>>, t: map<Name, Slot>, n: Name): map<Name, Slot>
    requires n in t && InRange(L, t[n])
  {
    var s := t[n];
    var items := L[s.i][s.k := L[s.i][s.k].(typ := Free)];
    if |L| == 1 || !AllFree(items) then t - {n} else Shifted(t - {n}, s.i)
  }

  lemma FreeIndex(L: seq<seq<Item>>, t: map<Name, Slot>, n: Name)
    requires Index(L, t) && n in t
    ensures InRange(L, t[n])
    ensures var it := L[t[n].i][t[n].k].(typ := Free);
      && Index(SetItem(L, t[n], it), t - {n})
      && Listing(SetItem(L, t[n], it), t - {n}) == Listing(L, t) - {n}
  {
  }

  /** Deleting an entry, dropping the block that it empties: a directory stays free of all-free
      blocks before its last one. */
  lemma RemoveIndex(L: seq<seq<Item>>, t: map<Name, Slot>, n: Name)
    requires Index(L, t) && Packed(L) && n in t && InRange(L, t[n])
    ensures var s := t[n];
      var L' := AfterCleanup(L, s.i, L[s.i][s.k := L[s.i][s.k].(typ := Free)]);
      && Index(L', RemovedSlots(L, t, n)) && Packed(L')
      && Listing(L', RemovedSlots(L, t, n)) == Listing(L, t) - {n}
  {
    hide Index, Packed, AllFree, Listing;
    var s := t[n];
    var items := L[s.i][s.k := L[s.i][s.k].(typ := Free)];
    FreeIndex(L, t, n);
    if |L| > 1 && AllFree(items) {
      assert L[s.i := items][..s.i] + L[s.i := items][s.i + 1..] == L[..s.i] + L[s.i + 1..];
      DropBlockIndex(L[s.i := items], t - {n}, s.i);
    }
    CleanupPacked(L, s.i, items);
  }

  /** Cleaning up leaves no all-free block before the last one. */
  lemma CleanupPacked(L: seq<seq<Item>>, at: nat, items: seq<Item>)
    requires Packed(L) && at < |L|
    ensures Packed(AfterCleanup(L, at, items))
  {
    var L' := AfterCleanup(L, at, items);
    var drop := |L| > 1 && AllFree(items);
    forall i | 0 <= i < |L'| - 1 ensures !AllFree(L'[i]) {
      var j := if drop && i >= at then i + 1 else i;
      if !drop && i == at {
        assert L'[i] == items;
      } else {
        assert L'[i] == L[j] && !AllFree(L[j]);
      }
    }
  }

  /** tfs_delete looks only at the head block of a directory; for a packed directory that
      decides whether it is empty. */
  lemma EmptinessCheck(L: seq<seq<Item>>, t: map<Name, Slot>)
    requires Index(L, t) && Packed(L) && |L| > 0
    ensures (|L| == 1 && AllFree(L[0])) <==> Listing(L, t) == map[]
  {
    if Listing(L, t) == map[] {
      assert forall i, k :: 0 <= i < |L| && 0 <= k < |L[i]| && L[i][k].typ != Free ==>
        L[i][k].name in Listing(L, t);
      assert AllFree(L[0]);
    } else {
      var n :| n in Listing(L, t);
      assert InRange(L, t[n]);
    }
  }

  /** Names are unique: at most one live item of a directory matches a name, so the first match
      of find_file is the only one; and one matches exactly if the name is listed. */
  lemma OneMatch(L: seq<seq<Item>>, t: map<Name, Slot>, name: CString)
    requires Index(L, t)
    ensures forall s, r :: Matches(L, s, name) && Matches(L, r, name) ==> s == r
    ensures (exists s :: Matches(L, s, name)) <==> Stored(name) in Listing(L, t)
  {
    forall s | Matches(L, s, name) ensures Stored(name) in t && t[Stored(name)] == s {
      var it := L[s.i][s.k];
      assert it.name in t && t[it.name] == Slot(s.i, s.k);
      assert HoldsName(L, t[it.name], it.name);
      MatchIsStoredEquality(name, it.name, 0);
    }
    if Stored(name) in t {
      assert HoldsName(L, t[Stored(name)], Stored(name));
      MatchIsStoredEquality(name, Stored(name), 0);
      assert Matches(L, t[Stored(name)], name);
    }
  }

  /** Slot s holds a live item that the file name comparison takes for `name`. */
  ghost predicate Matches(L: seq<seq<Item>>, s: Slot, name: CString)
  {
    InRange(L, s) && L[s.i][s.k].typ != Free && |L[s.i][s.k].name| == NAME_LEN && NameMatches(name, L[s.i][s.k].name, 0)
  }

  // ----- directories without a free slot -----

  /** The name in slot p, counted through all blocks. */
  ghost function NameAt(L: seq<seq<Item>>, p: nat): Name
  {
    if p / DIR_ITEMS < |L| && p % DIR_ITEMS < |L[p / DIR_ITEMS]| then L[p / DIR_ITEMS][p % DIR_ITEMS].name else []
  }

  lemma FullSlot(L: seq<seq<Item>>, t: map<Name, Slot>, p: nat)
    requires Index(L, t) && !HasFree(L) && (forall i :: 0 <= i < |L| ==> |L[i]| == DIR_ITEMS) && p < DIR_ITEMS * |L|
    ensures NameAt(L, p) in t && t[NameAt(L, p)] == Slot(p / DIR_ITEMS, p % DIR_ITEMS)
  {
    assert AllLive(L[p / DIR_ITEMS]);
  }

  lemma SlotNumber(i: nat, k: nat, p: nat)
    requires k < DIR_ITEMS
    ensures DIR_ITEMS * i + k == p <==> i == p / DIR_ITEMS && k == p % DIR_ITEMS
  {
  }

  /** The first p slots of a full directory hold p names. */
  lemma {:induction false} CountNames(L: seq<seq<Item>>, t: map<Name, Slot>, p: nat) returns (names: set<Name>)
    requires Index(L, t) && !HasFree(L) && (forall i :: 0 <= i < |L| ==> |L[i]| == DIR_ITEMS) && p <= DIR_ITEMS * |L|
    ensures |names| == p && forall n :: n in names <==> n in t && DIR_ITEMS * t[n].i + t[n].k < p
  {
    hide Index, HasFree, NameAt;
    if p == 0 {
      names := {};
    } else {
      var q := p - 1;
      names := CountNames(L, t, q);
      FullSlot(L, t, q);
      IndexRange(L, t);
      var m := NameAt(L, q);
      forall n | n in t ensures DIR_ITEMS * t[n].i + t[n].k == q <==> n == m {
        SlotNumber(t[n].i, t[n].k, q);
        SlotNumber(t[m].i, t[m].k, q);
      }
      names := names + {m};
    }
  }

  lemma IndexRange(L: seq<seq<Item>>, t: map<Name, Slot>)
    requires Index(L, t)
    ensures forall n :: n in t ==> InRange(L, t[n])
    ensures forall n, m :: n in t && m in t && t[n] == t[m] ==> n == m
  {
    forall n | n in t ensures HoldsName(L, t[n], n) {
    }
  }

  /** Only a directory that fills all its blocks has no free slot. */
  lemma FullDirectory(L: seq<seq<Item>>, t: map<Name, Slot>)
    requires Index(L, t) && !HasFree(L) && forall i :: 0 <= i < |L| ==> |L[i]| == DIR_ITEMS
    ensures |t.Keys| == DIR_ITEMS * |L|
  {
    hide Index, HasFree;
    var names := CountNames(L, t, DIR_ITEMS * |L|);
    IndexRange(L, t);
    assert names == t.Keys;
  }
}
