/** Deleting a row of the schedule table and closing the gap in place. */
module Compaction {
  import opened Schedule

  /** The first `m` rows are in use and no others. */
  predicate Packed(t: Table, m: nat) {
    m <= |t| && forall i :: 0 <= i < |t| ==> (t[i].isValid <==> i < m)
  }

  /** The rows from `s + 1` on move down one place; the last keeps a copy where it was. */
  function MoveDown(t: Table, s: nat): (u: Table)
    requires s + 1 < |t|
    ensures |u| == |t|
    ensures forall i :: 0 <= i < |t| ==> u[i] == t[if i < s || i == |t| - 1 then i else i + 1]
  {
    t[..s] + t[s + 1..] + [t[|t| - 1]]
  }

  /** The gap at `s` is closed as long as a used row follows it. */
  function Close(t: Table, s: nat): (u: Table)
    requires s < |t|
    ensures |u| == |t|
    decreases |t| - s
  {
    if s + 1 < |t| && t[s + 1].isValid then Close(MoveDown(t, s), s + 1) else t
  }

  function Deleted(t: Table, k: nat): (u: Table)
    requires k < |t|
    ensures |u| == |t|
  {
    Close(t[k := t[k].(isValid := false)], k)
  }

  // ---- The table stays packed

  /** In the middle of closing: rows before the gap are used, rows after it are used up to `m`. */
  predicate Gap(t: Table, s: nat, m: nat) {
    s < |t| && s <= m <= |t|
    && (forall i :: 0 <= i < s ==> t[i].isValid)
    && (forall i :: s < i < |t| ==> (t[i].isValid <==> i < m))
  }

  lemma GapMoves(t: Table, s: nat, m: nat)
    requires Gap(t, s, m) && s + 1 < m
    ensures s + 1 < |t| && Gap(MoveDown(t, s), s + 1, if m < |t| then m - 1 else m) && MoveDown(t, s)[s].isValid
    ensures MoveDown(t, s)[s + 1].isValid <==> s + 1 < (if m < |t| then m - 1 else m)
  {
    assert forall i :: s + 1 < i < |t| - 1 ==> (MoveDown(t, s)[i].isValid <==> t[i + 1].isValid);
  }

  /** After closing, the used rows are a prefix again: every move takes one row away, unless the table was full. */
  lemma {:induction false} ClosePacks(t: Table, s: nat, m: nat)
    requires Gap(t, s, m) && (t[s].isValid <==> s < m)
    ensures Packed(Close(t, s), if m == |t| then m else m - (m - s) / 2)
    decreases |t| - s
  {
    if s + 1 < m {
      GapMoves(t, s, m);
      ClosePacks(MoveDown(t, s), s + 1, if m < |t| then m - 1 else m);
    }
  }

  /** Used rows left by a deletion. */
  function Remaining(m: nat, k: nat, n: nat): nat
    requires k < m <= n
  {
    if m < n then if m == k + 1 then k else m - (m - k) / 2
    else if k == m - 1 then k else m
  }

  lemma DeletedPacks(t: Table, k: nat, m: nat)
    requires Packed(t, m) && k < m
    ensures Packed(Deleted(t, k), Remaining(m, k, |t|))
  {
    var u := t[k := t[k].(isValid := false)];
    if k + 1 < m {
      GapMoves(u, k, m);
      ClosePacks(MoveDown(u, k), k + 1, if m < |t| then m - 1 else m);
    }
  }

  /** The table without row `k`, as the user asked for it. */
  predicate Removed(t: Table, k: nat, m: nat, u: Table)
    requires k < m <= |t| == |u|
  {
    Packed(u, m - 1) && u[..m - 1] == t[..k] + t[k + 1..m]
  }

  /** Deleting a free row changes nothing. */
  lemma DeletedFree(t: Table, k: nat, m: nat)
    requires Packed(t, m) && m <= k < |t|
    ensures Deleted(t, k) == t
  {
    assert t[k].(isValid := false) == t[k];
    assert t[k := t[k]] == t;
  }

  lemma PackedOnce(t: Table, m: nat, n: nat)
    requires Packed(t, m) && Packed(t, n)
    ensures m == n
  {
    assert m < |t| ==> (t[m].isValid <==> m < n);
    assert n < |t| ==> (t[n].isValid <==> n < m);
  }

  // ---- What a deletion leaves, whatever the table

  /** How many blocks are moved. */
  function Moves(t: Table, s: nat): nat
    requires s < |t|
    decreases |t| - s
  {
    if s + 1 < |t| && t[s + 1].isValid then 1 + Moves(MoveDown(t, s), s + 1) else 0
  }

  /** The row that ends up in row `p` of a table of `n` rows after `m` moves from row `s` on. */
  function Origin(n: nat, s: nat, m: nat, p: nat): nat
    requires p < n
  {
    var q := if p < s then p else if p < s + m then s + 2 * (p - s) + 1 else p + m;
    if q < n then q else n - 1
  }

  lemma OriginMoves(n: nat, s: nat, m: nat, p: nat)
    requires p < n && m > 0 && s + 1 < n
    ensures var q := Origin(n, s + 1, m - 1, p);
            Origin(n, s, m, p) == if q < s || q == n - 1 then q else q + 1
  {
  }

  lemma {:induction false} CloseRow(t: Table, s: nat, p: nat)
    requires s < |t| && p < |t|
    ensures Close(t, s)[p] == t[Origin(|t|, s, Moves(t, s), p)]
    decreases |t| - s
  {
    if s + 1 < |t| && t[s + 1].isValid {
      hide Origin;
      CloseRow(MoveDown(t, s), s + 1, p);
      OriginMoves(|t|, s, Moves(t, s), p);
    }
  }

  /** Every row of the table after a deletion. */
  lemma DeletedRow(t: Table, k: nat, p: nat)
    requires k < |t| && p < |t|
    ensures var u := t[k := t[k].(isValid := false)];
            Deleted(t, k)[p] == u[Origin(|t|, k, Moves(u, k), p)]
    ensures Moves(t[k := t[k].(isValid := false)], k) == 0 <==> k + 1 >= |t| || !t[k + 1].isValid
  {
    CloseRow(t[k := t[k].(isValid := false)], k, p);
  }

  /** The used rows, in order. */
  function Used(t: Table): Table {
    if t == [] then [] else (if t[0].isValid then [t[0]] else []) + Used(t[1..])
  }

  lemma UsedFirst(t: Table)
    requires t != []
    ensures Used(t) == (if t[0].isValid then [t[0]] else []) + Used(t[1..])
  {
  }

  lemma Regroup(a: Table, b: Table, c: Table)
    ensures a + (b + c) == a + b + c
  {
  }

  lemma {:induction false} UsedConcat(t: Table, u: Table)
    ensures Used(t + u) == Used(t) + Used(u)
  {
    if t == [] {
      assert t + u == u;
    } else {
      hide Used;
      var head := if t[0].isValid then [t[0]] else [];
      UsedFirst(t);
      UsedFirst(t + u);
      assert (t + u)[1..] == t[1..] + u;
      UsedConcat(t[1..], u);
      Regroup(head, Used(t[1..]), Used(u));
    }
  }

  lemma UsedOne(e: Entry)
    ensures Used([e]) == if e.isValid then [e] else []
  {
    assert [e][1..] == [];
  }

  lemma UsedAround(t: Table, s: nat)
    requires s < |t|
    ensures Used(t) == Used(t[..s]) + (if t[s].isValid then [t[s]] else []) + Used(t[s + 1..])
  {
    hide Used;
    var first := if t[s].isValid then [t[s]] else [];
    SplitAt(t, s);
    UsedConcat(t[..s], t[s..]);
    UsedFirst(t[s..]);
    Regroup(Used(t[..s]), first, Used(t[s + 1..]));
  }

  lemma SplitAt(t: Table, s: nat)
    requires s < |t|
    ensures t[..s] + t[s..] == t && t[s..][0] == t[s] && t[s..][1..] == t[s + 1..]
  {
  }

  /** A block move loses the row it starts from and gains a copy of the last. */
  lemma UsedMoves(t: Table, s: nat)
    requires s + 1 < |t|
    ensures var last := t[|t| - 1];
            Used(MoveDown(t, s)) == Used(t[..s]) + Used(t[s + 1..]) + (if last.isValid then [last] else [])
  {
    hide Used;
    UsedConcat(t[..s] + t[s + 1..], [t[|t| - 1]]);
    UsedConcat(t[..s], t[s + 1..]);
    UsedOne(t[|t| - 1]);
  }

  /** With the last row in use, moving blocks never makes the used rows fewer. */
  lemma {:induction false} LastUsedGrows(t: Table, s: nat)
    requires s < |t| && t[|t| - 1].isValid
    ensures |Used(Close(t, s))| >= |Used(t)|
    ensures s + 1 < |t| && t[s + 1].isValid && !t[s].isValid ==> |Used(Close(t, s))| > |Used(t)|
    decreases |t| - s
  {
    hide Used;
    if s + 1 < |t| && t[s + 1].isValid {
      UsedAround(t, s);
      UsedMoves(t, s);
      LastUsedGrows(MoveDown(t, s), s + 1);
    }
  }

  /** Consecutive used rows `p`, `p + 2`, `p + 4` and so on inside the table. */
  function Stride(t: Table, p: nat): (n: nat)
    ensures n > 0 ==> p + 2 * (n - 1) < |t|
    decreases |t| - p
  {
    if p < |t| && t[p].isValid then 1 + Stride(t, p + 2) else 0
  }

  lemma {:induction false} StrideMoves(t: Table, s: nat, p: nat)
    requires s + 1 < |t| && s < p && !t[|t| - 1].isValid
    ensures Stride(MoveDown(t, s), p) == Stride(t, p + 1)
    decreases |t| - p
  {
    if p + 1 < |t| {
      StrideMoves(t, s, p + 2);
    }
  }

  /** The rows every other place from `s` on are free, `n` of them. */
  predicate FreeStride(t: Table, s: nat, n: nat)
    requires n > 0 ==> s + 2 * (n - 1) < |t|
  {
    forall j :: 0 <= j < n ==> !t[s + 2 * j].isValid
  }

  lemma FreeStrideMoves(t: Table, s: nat, n: nat)
    requires s + 1 < |t| && n > 0 && s + 1 + 2 * (n - 1) < |t|
    ensures FreeStride(t, s, n) <==> !t[s].isValid && FreeStride(MoveDown(t, s), s + 1, n - 1)
  {
    var u := MoveDown(t, s);
    assert forall j :: 0 <= j < n - 1 ==> u[s + 1 + 2 * j] == t[s + 2 * (j + 1)];
    if FreeStride(t, s, n) {
      assert !t[s + 2 * 0].isValid;
      forall j | 0 <= j < n - 1
        ensures !u[s + 1 + 2 * j].isValid
      {
        assert !t[s + 2 * (j + 1)].isValid;
      }
    }
    if !t[s].isValid && FreeStride(u, s + 1, n - 1) {
      forall j | 0 <= j < n
        ensures !t[s + 2 * j].isValid
      {
        if j > 0 {
          assert !u[s + 1 + 2 * (j - 1)].isValid;
        }
      }
    }
  }

  /** With the last row free, closing keeps the used rows exactly if every row it runs over is free. */
  lemma {:induction false} LastFreeExact(t: Table, s: nat)
    requires s < |t| && !t[|t| - 1].isValid
    ensures |Used(Close(t, s))| <= |Used(t)|
    ensures Used(Close(t, s)) == Used(t) <==> FreeStride(t, s, Stride(t, s + 1))
    decreases |t| - s
  {
    hide Used, FreeStride;
    if s + 1 < |t| && t[s + 1].isValid {
      UsedAround(t, s);
      UsedMoves(t, s);
      StrideMoves(t, s, s + 2);
      LastFreeExact(MoveDown(t, s), s + 1);
      FreeStrideMoves(t, s, Stride(t, s + 1));
    } else {
      NoStride(t, s);
    }
  }

  lemma NoStride(t: Table, s: nat)
    ensures FreeStride(t, s, 0)
  {
  }

  /** What must hold of the table for row `k` to be deleted cleanly: no used row follows it; or the last row is free,
      and so are the rows two, four, ... places after `k` that the moves run over. */
  predicate Deletable(t: Table, k: nat)
    requires k < |t|
  {
    var n := Stride(t, k + 1);
    n == 0 || (!t[|t| - 1].isValid && forall j :: 1 <= j < n ==> !t[k + 2 * j].isValid)
  }

  lemma {:induction false} StrideBehind(t: Table, k: nat, e: Entry, p: nat)
    requires k < |t| && k < p
    ensures Stride(t[k := e], p) == Stride(t, p)
    decreases |t| - p
  {
    if p < |t| {
      StrideBehind(t, k, e, p + 2);
    }
  }

  /** Deletion, in any table and at any row, leaves exactly the other used rows, in order, if and only if the table is
      such. */
  lemma DeletesExactly(t: Table, k: nat)
    requires k < |t|
    ensures Used(Deleted(t, k)) == Used(t[k := t[k].(isValid := false)]) <==> Deletable(t, k)
  {
    hide Used;
    var u := t[k := t[k].(isValid := false)];
    StrideBehind(t, k, u[k], k + 1);
    if Stride(t, k + 1) == 0 {
      assert Deleted(t, k) == u;
    } else if t[|t| - 1].isValid {
      LastUsedGrows(u, k);
    } else {
      LastFreeExact(u, k);
      FreeBehind(t, k, Stride(t, k + 1));
    }
  }

  lemma FreeBehind(t: Table, k: nat, n: nat)
    requires k < |t| && (n > 0 ==> k + 1 + 2 * (n - 1) < |t|)
    ensures FreeStride(t[k := t[k].(isValid := false)], k, n) <==> forall j :: 1 <= j < n ==> !t[k + 2 * j].isValid
  {
    var u := t[k := t[k].(isValid := false)];
    assert forall j :: 1 <= j < n ==> u[k + 2 * j] == t[k + 2 * j];
    if FreeStride(u, k, n) {
      forall j | 1 <= j < n
        ensures !t[k + 2 * j].isValid
      {
        assert !u[k + 2 * j].isValid;
      }
    }
  }

  /** In the table of four slots: exact unless the next row and the last row are both in use. */
  lemma FourSlots(t: Table, k: nat)
    requires |t| == 4 && k < 4
    ensures Used(Deleted(t, k)) == Used(t[k := t[k].(isValid := false)])
            <==> k == 3 || !t[k + 1].isValid || !t[3].isValid
  {
    hide Used, Deleted;
    DeletesExactly(t, k);
    assert Stride(t, k + 5) == 0;
    assert Stride(t, k + 3) == if k == 0 && t[3].isValid then 1 else 0;
  }

  // ---- Packed tables

  lemma {:induction false} UsedNone(t: Table)
    requires forall i :: 0 <= i < |t| ==> !t[i].isValid
    ensures Used(t) == []
  {
    if t != [] {
      UsedNone(t[1..]);
    }
  }

  lemma {:induction false} UsedAll(t: Table)
    requires forall i :: 0 <= i < |t| ==> t[i].isValid
    ensures Used(t) == t
  {
    if t != [] {
      UsedAll(t[1..]);
    }
  }

  lemma PackedUsed(t: Table, m: nat)
    requires Packed(t, m)
    ensures Used(t) == t[..m]
  {
    hide Used;
    assert t == t[..m] + t[m..];
    UsedConcat(t[..m], t[m..]);
    UsedAll(t[..m]);
    UsedNone(t[m..]);
  }

  lemma PackedOthers(t: Table, k: nat, m: nat)
    requires Packed(t, m) && k < m
    ensures Used(t[k := t[k].(isValid := false)]) == t[..k] + t[k + 1..m]
  {
    hide Used;
    var u := t[k := t[k].(isValid := false)];
    UsedAround(u, k);
    assert u[..k] == t[..k] && u[k + 1..] == t[k + 1..m] + t[m..];
    UsedAll(t[..k]);
    UsedConcat(t[k + 1..m], t[m..]);
    UsedAll(t[k + 1..m]);
    UsedNone(t[m..]);
  }

  /** So in a packed table exactly the row asked for goes if and only if it is the last used row, or the table is not
      full and at most two used rows follow it. */
  lemma PackedDeletesExactly(t: Table, k: nat, m: nat)
    requires Packed(t, m) && k < m
    ensures Removed(t, k, m, Deleted(t, k)) <==> k == m - 1 || (m < |t| && m <= k + 3)
  {
    var u, r := Deleted(t, k), Remaining(m, k, |t|);
    DeletesExactly(t, k);
    DeletedPacks(t, k, m);
    PackedUsed(u, r);
    PackedOthers(t, k, m);
    PackedDeletable(t, k, m);
    if Removed(t, k, m, u) {
      PackedOnce(u, m - 1, r);
    } else if Deletable(t, k) {
      assert |u[..r]| == m - 1;
    }
  }

  lemma PackedDeletable(t: Table, k: nat, m: nat)
    requires Packed(t, m) && k < m
    ensures Deletable(t, k) <==> k == m - 1 || (m < |t| && m <= k + 3)
  {
    if k + 3 < m {
      assert Stride(t, k + 1) >= 2;
      assert t[k + 2 * 1].isValid;
    } else if k + 1 < m {
      assert Stride(t, k + 3) == 0;
    }
  }

  /** The four slots, packed: exact whenever a slot is free or the last slot is the one deleted. */
  lemma FourPackedSlots(t: Table, k: nat, m: nat)
    requires |t| == 4 && Packed(t, m) && k < m
    ensures Removed(t, k, m, Deleted(t, k)) <==> m < 4 || k == 3
  {
    PackedDeletesExactly(t, k, m);
  }

  /** Deleting the first row of a full table of four loses the third row as well and leaves three copies of the last. */
  lemma FullTableDuplicates(t: Table)
    requires |t| == 4 && Packed(t, 4)
    ensures Deleted(t, 0) == [t[1], t[3], t[3], t[3]]
  {
    var u0 := t[0 := t[0].(isValid := false)];
    var u1 := MoveDown(u0, 0);
    assert u1 == [t[1], t[2], t[3], t[3]];
    var u2 := MoveDown(u1, 1);
    assert u2 == [t[1], t[3], t[3], t[3]];
    var u3 := MoveDown(u2, 2);
    assert u3 == u2;
    assert Deleted(t, 0) == Close(u0, 0) == Close(u1, 1) == Close(u2, 2) == Close(u3, 3) == u3;
  }

  /** A free slot does not prevent that: with the third row free, the last one still ends up three times. */
  lemma GappedTableDuplicates(t: Table)
    requires |t| == 4 && t[1].isValid && !t[2].isValid && t[3].isValid
    ensures Deleted(t, 0) == [t[1], t[3], t[3], t[3]]
  {
    var u0 := t[0 := t[0].(isValid := false)];
    var u1 := MoveDown(u0, 0);
    assert u1 == [t[1], t[2], t[3], t[3]];
    var u2 := MoveDown(u1, 1);
    assert u2 == [t[1], t[3], t[3], t[3]];
    var u3 := MoveDown(u2, 2);
    assert u3 == u2;
    assert Deleted(t, 0) == Close(u0, 0) == Close(u1, 1) == Close(u2, 2) == Close(u3, 3) == u3;
  }

  /** The block move over overlapping ranges: `count` rows from `s + 1` on go to `s` on. */
  method MoveRows(entries: array<Entry>, s: nat, count: nat)
    requires s + 1 + count == entries.Length && count > 0
    modifies entries
    ensures entries[..] == MoveDown(old(entries[..]), s)
  {
    for i := 0 to count
      invariant forall j :: 0 <= j < s || s + i <= j < entries.Length ==> entries[j] == old(entries[j])
      invariant forall j :: s <= j < s + i ==> entries[j] == old(entries[j + 1])
    {
      entries[s + i] := entries[s + i + 1];
    }
  }

  lemma CloseMoves(t: Table, s: nat)
    requires s < |t|
    ensures if s + 1 < |t| && t[s + 1].isValid then Close(t, s) == Close(MoveDown(t, s), s + 1) else Close(t, s) == t
  {
  }

  /** Invalidates the row and moves blocks down while the row after the gap is in use. */
  method Delete(entries: array<Entry>, index: nat)
    requires index < entries.Length
    modifies entries
    ensures entries[..] == Deleted(old(entries[..]), index)
  {
    ghost var goal := Deleted(entries[..], index);
    hide Close, MoveDown;
    entries[index] := entries[index].(isValid := false);
    assert entries[..] == old(entries[..])[index := old(entries[..])[index].(isValid := false)];
    var gap, next := index, index + 1;
    while next < entries.Length && entries[next].isValid
      invariant next == gap + 1 <= entries.Length
      invariant Close(entries[..], gap) == goal
      decreases entries.Length - gap
    {
      CloseMoves(entries[..], gap);
      MoveRows(entries, gap, entries.Length - next);
      gap, next := gap + 1, next + 1;
    }
    CloseMoves(entries[..], gap);
  }
}
